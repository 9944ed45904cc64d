/**
 What the payment services do, told from the tables alone: which commands write at all, what a committed
 finalization leaves behind, and that a finished operation and its resource never change again.
 */
module ServiceOutcomes {
  import opened Basics
  import opened Rows
  import opened Sums
  import opened Database
  import opened RefundReservations
  import opened RefundExactness
  import opened ResourceWrites
  import opened PaymentServices

  // --- which commands write --------------------------------------------------------------------

  lemma OperationParts(db: Tables)
    requires Valid(db)
    ensures Unique(db.operations, OperationKey) && Unique(db.authorizations, AuthorizationKey)
    ensures Unique(db.captures, CaptureKey) && Unique(db.refunds, RefundKey) && Unique(db.payments, PaymentKey)
    ensures forall o :: o in db.operations ==> o.kind == Authorize || o.kind == Kind.Capture || o.kind == Kind.Refund
    ensures forall o :: o in db.operations ==> HasPayment(db.payments, o.payment, o.org, o.env)
  {
  }

  lemma FindsResource(db: Tables, o: Operation, status: Status, journal: Option<Id>)
    requires Valid(db) && o in db.operations
    ensures ResourceUpdate(db, o, status, journal).Some? <==>
              || (o.kind == Authorize && exists a :: a in db.authorizations && a.id == o.resource && a.org == o.org)
              || (o.kind == Kind.Capture && exists c :: c in db.captures && c.id == o.resource && c.org == o.org)
              || (o.kind == Kind.Refund && exists r :: r in db.refunds && r.id == o.resource && r.org == o.org)
  {
    hide Valid;
    OperationParts(db);
    forall a | a in db.authorizations ensures Lookup(db.authorizations, AuthorizationKey, a.id) == Some(a) {
      FindsRow(db.authorizations, AuthorizationKey, a);
    }
    forall c | c in db.captures ensures Lookup(db.captures, CaptureKey, c.id) == Some(c) {
      FindsRow(db.captures, CaptureKey, c);
    }
    forall r | r in db.refunds ensures Lookup(db.refunds, RefundKey, r.id) == Some(r) {
      FindsRow(db.refunds, RefundKey, r);
    }
  }

  lemma MovesExactly(db: Tables, o: Operation, p: Payment, success: bool)
    requires o.kind == Authorize || o.kind == Kind.Capture || o.kind == Kind.Refund
    ensures MayMove(db, o, p, success) <==>
              && (success ==> match o.kind
                              case Authorize => p.status == Created || p.status == RequiresAction
                              case Capture => p.status == Authorised
                              case _ => p.status == Captured || p.status == PartiallyRefunded)
              && (!success && o.kind != Kind.Refund ==>
                    p.status == Created || p.status == RequiresAction || p.status == Authorised)
  {
    hide RefundedInFull;
  }

  /**
   A finalization or a review writes exactly when its operation is PROCESSING or in review and the resource
   it names is there, in its organisation; and a finalization only while the payment may still make the
   move: authorized before it is, captured once authorized, failed until captured, refunded once captured.
   */
  lemma WritesExactly(db: Tables, cmd: Command, o: Operation, p: Payment)
    requires Valid(db) && (cmd.Finalize? || cmd.Review?) && o in db.operations && o.id == cmd.operation
    requires p in db.payments && p.id == o.payment
    ensures Plan(db, cmd).Some? <==>
              && (o.status == Processing || o.status == RequiresReview)
              && (|| (o.kind == Authorize && exists a :: a in db.authorizations && a.id == o.resource && a.org == o.org)
                  || (o.kind == Kind.Capture && exists c :: c in db.captures && c.id == o.resource && c.org == o.org)
                  || (o.kind == Kind.Refund && exists r :: r in db.refunds && r.id == o.resource && r.org == o.org))
              && (cmd.Finalize? && cmd.success ==>
                    match o.kind
                    case Authorize => p.status == Created || p.status == RequiresAction
                    case Capture => p.status == Authorised
                    case _ => p.status == Captured || p.status == PartiallyRefunded)
              && (cmd.Finalize? && !cmd.success && o.kind != Kind.Refund ==>
                    p.status == Created || p.status == RequiresAction || p.status == Authorised)
  {
    hide Valid, ResourceUpdate, MayMove, PaymentMove, Booking;
    OperationParts(db);
    FindsRow(db.operations, OperationKey, o);
    FindsRow(db.payments, PaymentKey, p);
    FindsResource(db, o, RequiresReview, None);
    if cmd.Finalize? {
      MovesExactly(db, o, p, cmd.success);
      FindsResource(db, o, Verdict(cmd), BookedAs(cmd));
    }
  }

  /** A finished operation is left as it is, whatever evidence arrives, and an unknown one too. */
  lemma FinishedIsLeftAlone(db: Tables, cmd: Command)
    requires Valid(db) && (cmd.Finalize? || cmd.Review?)
    requires forall o :: o in db.operations && o.id == cmd.operation ==> o.status == Succeeded || o.status == Failed
    ensures Plan(db, cmd) == None
  {
  }

  // --- what a finalization leaves behind -------------------------------------------------------

  /** The two tables that the discipline does not look at. */
  datatype Rest = Rest(authorizations: seq<Authorization>, payments: seq<Payment>)

  function RestOf(db: Tables): Rest {
    Rest(db.authorizations, db.payments)
  }

  function RestThen(e: Rest, s: Statement): Rest {
    match s
    case OnAuthorizations(change) => e.(authorizations := Changed(e.authorizations, AuthorizationKey, change))
    case OnPayments(change) => e.(payments := Changed(e.payments, PaymentKey, change))
    case _ => e
  }

  function RestAfter(db: Tables, ss: Transaction): Rest {
    if ss == [] then RestOf(db) else RestThen(RestAfter(db, ss[..|ss| - 1]), ss[|ss| - 1])
  }

  lemma {:induction false} RestEffects(w: Work, ss: Transaction)
    requires ExecAll(w, ss).Some?
    ensures RestOf(ExecAll(w, ss).value.db) == RestAfter(w.db, ss)
  {
    hide Valid;
    if ss != [] {
      RestEffects(w, ss[..|ss| - 1]);
    }
  }

  lemma {:induction false} RestUntouched(db: Tables, ss: Transaction, more: Transaction)
    requires forall s :: s in more ==> !s.OnAuthorizations? && !s.OnPayments?
    ensures RestAfter(db, ss + more) == RestAfter(db, ss)
  {
    if more == [] {
      assert ss + more == ss;
    } else {
      var n := |more| - 1;
      assert (ss + more)[..|ss + more| - 1] == ss + more[..n];
      RestUntouched(db, ss, more[..n]);
    }
  }

  lemma RestSnoc(db: Tables, ss: Transaction, s: Statement)
    ensures RestAfter(db, ss + [s]) == RestThen(RestAfter(db, ss), s)
  {
    assert (ss + [s])[..|ss|] == ss;
  }

  lemma {:induction false} PostingInsertsAre(ps: seq<Posting>)
    ensures forall s :: s in PostingInserts(ps) ==> s.OnPostings?
  {
    if ps != [] {
      PostingInsertsAre(ps[..|ps| - 1]);
    }
  }

  /** The statements of a finalization, in order. */
  function Parts(db: Tables, cmd: Command, o: Operation): (Transaction, Statement, Transaction, Statement)
    requires cmd.Finalize? && ResourceUpdate(db, o, Verdict(cmd), BookedAs(cmd)).Some?
    requires Lookup(db.payments, PaymentKey, o.payment).Some?
  {
    (if o.kind.Authorize? then [] else Booking(o, cmd),
     ResourceUpdate(db, o, Verdict(cmd), BookedAs(cmd)).value,
     PaymentMove(db, o, Lookup(db.payments, PaymentKey, o.payment).value, cmd.success),
     OnOperations(Update(o.(status := Verdict(cmd)))))
  }

  lemma RestOfFinalize(db: Tables, cmd: Command, o: Operation)
    requires cmd.Finalize? && PlanFinalize(db, cmd).Some?
    requires Lookup(db.operations, OperationKey, cmd.operation) == Some(o)
    ensures var p := Parts(db, cmd, o);
            RestAfter(db, PlanFinalize(db, cmd).value)
            == if p.2 == [] then RestThen(RestOf(db), p.1) else RestThen(RestThen(RestOf(db), p.1), p.2[0])
  {
    var p := Parts(db, cmd, o);
    assert PlanFinalize(db, cmd).value == p.0 + [p.1] + p.2 + [p.3];
    PostingInsertsAre(PostingsFor(o, cmd.journal, cmd.entries));
    RestUntouched(db, [], p.0);
    assert [] + p.0 == p.0;
    RestSnoc(db, p.0, p.1);
    if p.2 == [] {
      assert p.0 + [p.1] + p.2 == p.0 + [p.1];
    } else {
      assert p.2 == [p.2[0]];
      RestSnoc(db, p.0 + [p.1], p.2[0]);
    }
    RestUntouched(db, p.0 + [p.1] + p.2, [p.3]);
  }

  lemma CommittedRest(db: Tables, tx: Transaction)
    requires Commits(db, tx)
    ensures RestOf(Committed(db, tx)) == RestAfter(db, tx)
  {
    RestEffects(Work(db, []), tx);
  }

  /** The tables after a committed finalization, one by one. */
  lemma FinalizedTables(db: Tables, cmd: Command, o: Operation)
    requires Valid(db) && cmd.Finalize? && o in db.operations && o.id == cmd.operation
    requires Plan(db, cmd).Some? && Commits(db, Plan(db, cmd).value)
    ensures var after := Committed(db, Plan(db, cmd).value);
            var s := ResourceUpdate(db, o, Verdict(cmd), BookedAs(cmd));
            && s.Some?
            && after.operations == Changed(db.operations, OperationKey, Update(o.(status := Verdict(cmd))))
            && after.captures == Then(Seen(db), s.value).captures
            && after.refunds == Then(Seen(db), s.value).refunds
            && after.authorizations == RestThen(RestOf(db), s.value).authorizations
  {
    hide Valid, Commits, Committed, After, RestAfter, BindingRejects, Plan;
    MoveEffects(db, cmd, o);
    CommittedEffects(db, Plan(db, cmd).value);
    CommittedRest(db, Plan(db, cmd).value);
  }

  /**
   A committed finalization finishes its operation: SUCCEEDED or FAILED as the provider said, with every
   other operation as it was.
   */
  lemma FinalizedOperation(db: Tables, cmd: Command, o: Operation)
    requires Valid(db) && cmd.Finalize? && o in db.operations && o.id == cmd.operation
    requires Plan(db, cmd).Some? && Commits(db, Plan(db, cmd).value)
    ensures var after := Committed(db, Plan(db, cmd).value);
            forall x :: x in after.operations <==>
              || (x in db.operations && x.id != o.id)
              || x == o.(status := if cmd.success then Succeeded else Failed)
  {
    hide Valid, Commits, Committed, Plan, ResourceUpdate, Changed;
    OperationParts(db);
    FindsRow(db.operations, OperationKey, o);
    FinalizedTables(db, cmd, o);
    UpdateMembers(db.operations, OperationKey, o.(status := Verdict(cmd)));
  }

  /**
   The resource ends as its operation does. A capture or a refund that succeeded names the journal posted
   with it, and one that failed names none; every other row is as it was.
   */
  lemma FinalizedResource(db: Tables, cmd: Command, o: Operation)
    requires Valid(db) && cmd.Finalize? && o in db.operations && o.id == cmd.operation
    requires Plan(db, cmd).Some? && Commits(db, Plan(db, cmd).value)
    ensures var after := Committed(db, Plan(db, cmd).value);
            var status := if cmd.success then Succeeded else Failed;
            var journal := if cmd.success then Some(cmd.journal) else None;
            && (forall x :: x in after.captures <==>
                  || (x in db.captures && (o.kind != Kind.Capture || x.id != o.resource))
                  || (o.kind == Kind.Capture && exists c :: c in db.captures && c.id == o.resource
                                                          && x == c.(status := status, journal := journal)))
            && (forall x :: x in after.refunds <==>
                  || (x in db.refunds && (o.kind != Kind.Refund || x.id != o.resource))
                  || (o.kind == Kind.Refund && exists r :: r in db.refunds && r.id == o.resource
                                                         && x == r.(status := status, journal := journal)))
            && (forall x :: x in after.authorizations <==>
                  || (x in db.authorizations && (o.kind != Authorize || x.id != o.resource))
                  || (o.kind == Authorize && exists a :: a in db.authorizations && a.id == o.resource
                                                         && x == a.(status := status)))
  {
    hide Valid, Commits, Committed, Plan, Changed;
    OperationParts(db);
    FinalizedTables(db, cmd, o);
    var after := Committed(db, Plan(db, cmd).value);
    CommittedChecks(db, Plan(db, cmd).value);
    if o.kind.Capture? {
      CaptureReplaced(db.captures, after.captures, o.resource, Verdict(cmd), BookedAs(cmd));
    } else if o.kind.Refund? {
      RefundReplaced(db.refunds, after.refunds, o.resource, Verdict(cmd), BookedAs(cmd));
    } else {
      AuthorizationReplaced(db.authorizations, after.authorizations, o.resource, Verdict(cmd));
    }
  }

  lemma CommittedChecks(db: Tables, tx: Transaction)
    requires Valid(db) && Commits(db, tx)
    ensures forall c :: c in Committed(db, tx).captures ==> CaptureChecked(c)
    ensures forall r :: r in Committed(db, tx).refunds ==> RefundChecked(r)
  {
    CommittedValid(db, tx);
  }

  lemma CaptureReplaced(rows: seq<CaptureRow>, after: seq<CaptureRow>, id: Id, status: Status, journal: Option<Id>)
    requires Unique(rows, CaptureKey) && Lookup(rows, CaptureKey, id).Some? && (status.Succeeded? ==> journal.Some?)
    requires var c := Lookup(rows, CaptureKey, id).value;
             after == Changed(rows, CaptureKey, Update(c.(status := status, journal := Posted(journal, c.journal))))
    requires forall x :: x in after ==> CaptureChecked(x)
    ensures forall x :: x in after <==>
              || (x in rows && x.id != id)
              || (exists c :: c in rows && c.id == id && x == c.(status := status, journal := journal))
  {
    var c := Lookup(rows, CaptureKey, id).value;
    UpdateMembers(rows, CaptureKey, c.(status := status, journal := Posted(journal, c.journal)));
    assert c.(status := status, journal := Posted(journal, c.journal)) in after;
    forall d | d in rows && d.id == id ensures d == c { SameRow(rows, CaptureKey, c, d); }
  }

  lemma RefundReplaced(rows: seq<RefundRow>, after: seq<RefundRow>, id: Id, status: Status, journal: Option<Id>)
    requires Unique(rows, RefundKey) && Lookup(rows, RefundKey, id).Some? && (status.Succeeded? ==> journal.Some?)
    requires var r := Lookup(rows, RefundKey, id).value;
             after == Changed(rows, RefundKey, Update(r.(status := status, journal := Posted(journal, r.journal))))
    requires forall x :: x in after ==> RefundChecked(x)
    ensures forall x :: x in after <==>
              || (x in rows && x.id != id)
              || (exists r :: r in rows && r.id == id && x == r.(status := status, journal := journal))
  {
    var r := Lookup(rows, RefundKey, id).value;
    UpdateMembers(rows, RefundKey, r.(status := status, journal := Posted(journal, r.journal)));
    assert r.(status := status, journal := Posted(journal, r.journal)) in after;
    forall q | q in rows && q.id == id ensures q == r { SameRow(rows, RefundKey, r, q); }
  }

  lemma AuthorizationReplaced(rows: seq<Authorization>, after: seq<Authorization>, id: Id, status: Status)
    requires Unique(rows, AuthorizationKey) && Lookup(rows, AuthorizationKey, id).Some?
    requires var a := Lookup(rows, AuthorizationKey, id).value;
             after == Changed(rows, AuthorizationKey, Update(a.(status := status)))
    ensures forall x :: x in after <==>
              || (x in rows && x.id != id)
              || (exists a :: a in rows && a.id == id && x == a.(status := status))
  {
    var a := Lookup(rows, AuthorizationKey, id).value;
    UpdateMembers(rows, AuthorizationKey, a.(status := status));
    forall b | b in rows && b.id == id ensures b == a { SameRow(rows, AuthorizationKey, a, b); }
  }

  /** A capture or a refund that succeeds posts one journal of its kind, for it; nothing else posts any. */
  lemma FinalizedJournal(db: Tables, cmd: Command, o: Operation)
    requires Valid(db) && cmd.Finalize? && o in db.operations && o.id == cmd.operation
    requires Plan(db, cmd).Some? && Commits(db, Plan(db, cmd).value)
    ensures var after := Committed(db, Plan(db, cmd).value);
            if cmd.success && o.kind != Authorize then
              && after.journals == db.journals + [Journal(cmd.journal, o.org, o.env, Some(cmd.merchant), Some(o.id),
                                                          o.kind, o.resource, Inr)]
              && |after.postings| == |db.postings| + |cmd.entries| && db.postings <= after.postings
              && forall i :: 0 <= i < |cmd.entries| ==>
                   var e, p := cmd.entries[i], after.postings[|db.postings| + i];
                   p == Posting(e.id, o.org, o.env, cmd.journal, e.account, e.side, e.amount, Inr)
            else
              after.journals == db.journals && after.postings == db.postings
  {
    hide Valid, Commits, Committed, Plan;
    FinalizedLedger(db, cmd, o);
    EntriesInOrder(o, cmd.journal, cmd.entries);
    assert db.journals + [] == db.journals && db.postings + [] == db.postings;
  }

  lemma FinalizedLedger(db: Tables, cmd: Command, o: Operation)
    requires Valid(db) && cmd.Finalize? && o in db.operations && o.id == cmd.operation
    requires Plan(db, cmd).Some? && Commits(db, Plan(db, cmd).value)
    ensures var after := Committed(db, Plan(db, cmd).value);
            after.journals == db.journals + Booked(o, cmd) && after.postings == db.postings + BookedPostings(o, cmd)
  {
    hide Valid, Commits, Committed, After, Booked, BookedPostings, RefundedInFull, Booking;
    OperationParts(db);
    FindsRow(db.operations, OperationKey, o);
    CommittedEffects(db, Plan(db, cmd).value);
    FinalizeEffects(db, cmd);
  }

  lemma {:induction false} EntriesInOrder(o: Operation, journal: Id, entries: seq<Entry>)
    ensures var ps := PostingsFor(o, journal, entries);
            && |ps| == |entries|
            && forall i :: 0 <= i < |entries| ==>
                 var e := entries[i]; ps[i] == Posting(e.id, o.org, o.env, journal, e.account, e.side, e.amount, Inr)
  {
    if entries != [] {
      EntriesInOrder(o, journal, entries[..|entries| - 1]);
    }
  }

  /** What refunds of a payment have settled. */
  function RefundedOf(payment: Id): RefundRow -> int {
    (r: RefundRow) => if r.payment == payment && r.status == Succeeded then r.amount else 0
  }

  /**
   Where the payment stands after a committed finalization. After a refund it is REFUNDED exactly when the
   settled refunds of the tables as committed total what was captured.
   */
  lemma FinalizedPayment(db: Tables, cmd: Command, o: Operation, p: Payment)
    requires Valid(db) && cmd.Finalize? && o in db.operations && o.id == cmd.operation
    requires p in db.payments && p.id == o.payment
    requires Plan(db, cmd).Some? && Commits(db, Plan(db, cmd).value)
    ensures var after := Committed(db, Plan(db, cmd).value);
            var full := exists c :: c in after.captures && c.payment == o.payment && c.status == Succeeded
                                    && Sum(after.refunds, RefundedOf(o.payment)) == c.amount;
            var moved := if o.kind == Authorize then if cmd.success then Authorised else PaymentFailed
                         else if o.kind == Kind.Capture then if cmd.success then Captured else PaymentFailed
                         else if !cmd.success then p.status
                         else if full then Refunded else PartiallyRefunded;
            forall x :: x in after.payments <==> (x in db.payments && x.id != p.id) || x == p.(status := moved)
  {
    hide Valid, Commits, Committed, RefundedInFull, Plan, Changed;
    OperationParts(db);
    FinalizedMove(db, cmd, o, p);
    if o.kind.Refund? && cmd.success {
      FullExactly(db, cmd, o);
    }
    forall x | x in db.payments && x.id == p.id ensures x == p { SameRow(db.payments, PaymentKey, x, p); }
    UpdateMembers(db.payments, PaymentKey, p.(status := MoveTo(db, o, cmd.success)));
  }

  lemma FinalizedMove(db: Tables, cmd: Command, o: Operation, p: Payment)
    requires Valid(db) && cmd.Finalize? && o in db.operations && o.id == cmd.operation
    requires p in db.payments && p.id == o.payment
    requires Plan(db, cmd).Some? && Commits(db, Plan(db, cmd).value)
    ensures Committed(db, Plan(db, cmd).value).payments
         == if o.kind.Refund? && !cmd.success then db.payments
            else Changed(db.payments, PaymentKey, Update(p.(status := MoveTo(db, o, cmd.success))))
  {
    hide Valid, Commits, Committed, RestAfter, MoveTo, Changed, Booking;
    OperationParts(db);
    FindsRow(db.operations, OperationKey, o);
    FindsRow(db.payments, PaymentKey, p);
    CommittedRest(db, Plan(db, cmd).value);
    RestOfFinalize(db, cmd, o);
  }

  lemma FullExactly(db: Tables, cmd: Command, o: Operation)
    requires Valid(db) && cmd.Finalize? && cmd.success && o in db.operations && o.id == cmd.operation && o.kind.Refund?
    requires Plan(db, cmd).Some? && Commits(db, Plan(db, cmd).value)
    ensures var after := Committed(db, Plan(db, cmd).value);
            RefundedInFull(db, o) <==>
            exists c :: c in after.captures && c.payment == o.payment && c.status == Succeeded
                        && Sum(after.refunds, RefundedOf(o.payment)) == c.amount
  {
    hide Valid, Commits, Committed, Plan;
    OperationParts(db);
    FinalizedTables(db, cmd, o);
    var after := Committed(db, Plan(db, cmd).value);
    SettledTotal(db.refunds, o.resource, Some(cmd.journal), o.payment);
    SumEqual(after.refunds, SettledOf(o.payment), RefundedOf(o.payment));
    hide Changed;
    OneSettledCapture(db, o.payment);
  }

  /** The journal that a refund names does not matter to what refunds total. */
  lemma SettledTotal(rows: seq<RefundRow>, id: Id, journal: Option<Id>, payment: Id)
    requires Position(rows, RefundKey, id).Some?
    ensures var r := Lookup(rows, RefundKey, id).value;
            Sum(Changed(rows, RefundKey, Update(r.(status := Succeeded))), SettledOf(payment))
            == Sum(Changed(rows, RefundKey, Update(r.(status := Succeeded, journal := journal))), SettledOf(payment))
  {
    var i := Position(rows, RefundKey, id).value;
    SumUpdate(rows, i, rows[i].(status := Succeeded), SettledOf(payment));
    SumUpdate(rows, i, rows[i].(status := Succeeded, journal := journal), SettledOf(payment));
  }

  /** A payment has one capture, whatever the scope. */
  lemma OneSettledCapture(db: Tables, payment: Id)
    requires Valid(db)
    ensures forall c, d :: c in db.captures && d in db.captures && c.payment == d.payment == payment ==> c == d
  {
    forall c, d | c in db.captures && d in db.captures && c.payment == payment && d.payment == payment ensures c == d {
      assert CaptureLinked(db, c) && CaptureLinked(db, d);
      var p :| p in db.payments && p.id == c.payment && p.org == c.org;
      var q :| q in db.payments && q.id == d.payment && q.org == d.org;
      SameRow(db.payments, PaymentKey, p, q);
      assert CapturesClash(c, d);
    }
  }

  /** A committed review leaves the operation and its resource in review, with no journal. */
  lemma ReviewedExactly(db: Tables, cmd: Command, o: Operation)
    requires Valid(db) && cmd.Review? && o in db.operations && o.id == cmd.operation
    requires Plan(db, cmd).Some? && Commits(db, Plan(db, cmd).value)
    ensures var after := Committed(db, Plan(db, cmd).value);
            && (forall x :: x in after.operations <==>
                  (x in db.operations && x.id != o.id) || x == o.(status := RequiresReview))
            && (forall x :: x in after.captures <==>
                  || (x in db.captures && (o.kind != Kind.Capture || x.id != o.resource))
                  || (o.kind == Kind.Capture && exists c :: c in db.captures && c.id == o.resource
                                                          && x == c.(status := RequiresReview, journal := None)))
            && (forall x :: x in after.refunds <==>
                  || (x in db.refunds && (o.kind != Kind.Refund || x.id != o.resource))
                  || (o.kind == Kind.Refund && exists r :: r in db.refunds && r.id == o.resource
                                                         && x == r.(status := RequiresReview, journal := None)))
            && (forall x :: x in after.authorizations <==>
                  || (x in db.authorizations && (o.kind != Authorize || x.id != o.resource))
                  || (o.kind == Authorize && exists a :: a in db.authorizations && a.id == o.resource
                                                         && x == a.(status := RequiresReview)))
  {
    hide Valid, Commits, Committed, After, RestAfter, Plan, Changed, BindingRejects;
    OperationParts(db);
    FindsRow(db.operations, OperationKey, o);
    ReviewMoves(db, cmd, o);
    CommittedEffects(db, Plan(db, cmd).value);
    CommittedRest(db, Plan(db, cmd).value);
    UpdateMembers(db.operations, OperationKey, o.(status := RequiresReview));
    var after := Committed(db, Plan(db, cmd).value);
    CommittedChecks(db, Plan(db, cmd).value);
    if o.kind.Capture? {
      CaptureReplaced(db.captures, after.captures, o.resource, RequiresReview, None);
    } else if o.kind.Refund? {
      RefundReplaced(db.refunds, after.refunds, o.resource, RequiresReview, None);
    } else {
      AuthorizationReplaced(db.authorizations, after.authorizations, o.resource, RequiresReview);
    }
  }

  // --- which captures and refunds the services start -------------------------------------------

  /** A payment's captures are all in the payment's own scope. */
  lemma CapturesInScope(db: Tables, p: Payment, c: CaptureRow)
    requires Valid(db) && p in db.payments && c in db.captures && c.payment == p.id
    ensures c.org == p.org && c.env == p.env
  {
    assert CaptureLinked(db, c);
    var q :| q in db.payments && q.id == c.payment && q.org == c.org && q.env == c.env;
    SameRow(db.payments, PaymentKey, p, q);
  }

  lemma OneHold(db: Tables, org: Id, payment: Id)
    requires Valid(db)
    ensures forall a, b | a in db.authorizations && b in db.authorizations && a.org == b.org == org
                          && a.payment == b.payment == payment :: a == b
  {
    forall a, b | a in db.authorizations && b in db.authorizations && a.org == b.org == org
                  && a.payment == b.payment == payment
      ensures a == b
    {
      assert AuthorizationsClash(a, b);
    }
  }

  lemma OnePayment(db: Tables, id: Id)
    requires Valid(db)
    ensures forall p, q :: p in db.payments && q in db.payments && p.id == q.id == id ==> p == q
  {
    forall p, q | p in db.payments && q in db.payments && p.id == q.id == id ensures p == q {
      SameRow(db.payments, PaymentKey, p, q);
    }
  }

  /** When `initiate_capture` writes at all, by the rows it reads. */
  lemma CapturePlannedExactly(db: Tables, cmd: Command)
    requires Valid(db) && cmd.InitiateCapture?
    ensures Plan(db, cmd).Some? <==>
              && (exists p :: p in db.payments && p.id == cmd.payment && p.org == cmd.org && p.env == cmd.env
                              && p.status != Cancelled && p.status != Expired && p.status != PaymentFailed)
              && (exists a :: a in db.authorizations && a.org == cmd.org && a.env == cmd.env && a.payment == cmd.payment
                              && a.status == Succeeded && 0 < cmd.amount <= a.amount)
              && (forall c :: c in db.captures ==> c.org != cmd.org || c.env != cmd.env || c.payment != cmd.payment)
    ensures Plan(db, cmd).Some? ==>
              exists a :: a in db.authorizations && a.org == cmd.org && a.env == cmd.env && a.payment == cmd.payment
                          && Plan(db, cmd).value
                             == CaptureTransaction(CaptureRow(cmd.capture, cmd.org, cmd.env, cmd.payment, a.id,
                                                              cmd.operation, cmd.amount, Processing, None))
  {
    hide Valid;
    OneHold(db, cmd.org, cmd.payment);
    OnePayment(db, cmd.payment);
  }

  /**
   `initiate_capture` commits exactly when the payment is there and neither cancelled, expired nor failed, its
   authorization is SUCCEEDED and covers a positive amount, the payment has no capture yet, and the two ids
   are new; and then one PROCESSING capture on that authorization is what it adds.
   */
  lemma CaptureStartsExactly(db: Tables, cmd: Command)
    requires Valid(db) && OperationKeysHold(db) && cmd.InitiateCapture?
    ensures Plan(db, cmd).Some? && Commits(db, Plan(db, cmd).value) <==>
              && (exists p :: p in db.payments && p.id == cmd.payment && p.org == cmd.org && p.env == cmd.env
                              && p.status != Cancelled && p.status != Expired && p.status != PaymentFailed)
              && (exists a :: a in db.authorizations && a.org == cmd.org && a.env == cmd.env && a.payment == cmd.payment
                              && a.status == Succeeded && 0 < cmd.amount <= a.amount)
              && (forall c :: c in db.captures ==>
                    c.payment != cmd.payment && c.id != cmd.capture && c.operation != cmd.operation)
              && (forall o :: o in db.operations ==>
                    && o.id != cmd.operation
                    && (o.org != cmd.org || o.env != cmd.env || o.kind != Kind.Capture || o.resource != cmd.capture))
    ensures Plan(db, cmd).Some? && Commits(db, Plan(db, cmd).value) ==>
              exists a :: a in db.authorizations && a.org == cmd.org && a.env == cmd.env && a.payment == cmd.payment
                          && Committed(db, Plan(db, cmd).value).captures
                             == db.captures + [CaptureRow(cmd.capture, cmd.org, cmd.env, cmd.payment, a.id,
                                                          cmd.operation, cmd.amount, Processing, None)]
  {
    hide Valid, OperationKeysHold, Commits, Committed, Plan;
    CapturePlannedExactly(db, cmd);
    forall p, c | p in db.payments && c in db.captures && p.id == cmd.payment && c.payment == p.id
      ensures c.org == p.org && c.env == p.env
    {
      CapturesInScope(db, p, c);
    }
    OneHold(db, cmd.org, cmd.payment);
    OnePayment(db, cmd.payment);
    if Plan(db, cmd).Some? {
      var a :| a in db.authorizations && a.org == cmd.org && a.env == cmd.env && a.payment == cmd.payment
               && Plan(db, cmd).value
                  == CaptureTransaction(CaptureRow(cmd.capture, cmd.org, cmd.env, cmd.payment, a.id,
                                                   cmd.operation, cmd.amount, Processing, None));
      var c := CaptureRow(cmd.capture, cmd.org, cmd.env, cmd.payment, a.id, cmd.operation, cmd.amount, Processing,
                          None);
      CaptureCommitsExactly(db, c);
      CaptureCommitsWhen(db, c);
      OneAuthorization(db, a);
    }
  }

  lemma OneAuthorization(db: Tables, a: Authorization)
    requires Valid(db) && a in db.authorizations
    ensures forall b :: b in db.authorizations && b.id == a.id ==> b == a
  {
    forall b | b in db.authorizations && b.id == a.id ensures b == a {
      SameRow(db.authorizations, AuthorizationKey, a, b);
    }
  }

  /** When `initiate_refund` writes at all, by the rows it reads. */
  lemma RefundPlannedExactly(db: Tables, cmd: Command)
    requires Valid(db) && cmd.InitiateRefund?
    ensures Plan(db, cmd).Some? <==>
            exists c :: c in db.captures && c.org == cmd.org && c.env == cmd.env && c.payment == cmd.payment
                        && c.status == Succeeded
                        && Sum(db.refunds, Outstanding(cmd.org, cmd.payment)) + cmd.amount <= c.amount
    ensures Plan(db, cmd).Some? ==>
              exists c :: c in db.captures && c.org == cmd.org && c.env == cmd.env && c.payment == cmd.payment
                          && c.status == Succeeded
                          && Plan(db, cmd).value
                             == RefundTransaction(RefundRow(cmd.refund, cmd.org, cmd.env, cmd.payment, c.id,
                                                            cmd.operation, cmd.amount, Processing, None))
  {
    hide Valid, LiveRefunds;
    OneSettledCapture(db, cmd.payment);
    LiveIsOutstanding(db, cmd.org, cmd.payment);
  }

  /**
   `initiate_refund` commits exactly when the amount is positive, the payment's own capture is SUCCEEDED and
   covers it on top of every refund that has not failed, and the two ids are new; and then one PROCESSING
   refund of that capture is what it adds.
   */
  lemma RefundStartsExactly(db: Tables, cmd: Command)
    requires Valid(db) && OperationKeysHold(db) && cmd.InitiateRefund?
    ensures Plan(db, cmd).Some? && Commits(db, Plan(db, cmd).value) <==>
              && cmd.amount > 0
              && (exists c :: c in db.captures && c.org == cmd.org && c.env == cmd.env && c.payment == cmd.payment
                              && c.status == Succeeded
                              && Sum(db.refunds, Outstanding(cmd.org, cmd.payment)) + cmd.amount <= c.amount)
              && (forall r :: r in db.refunds ==> r.id != cmd.refund && r.operation != cmd.operation)
              && (forall o :: o in db.operations ==>
                    && o.id != cmd.operation
                    && (o.org != cmd.org || o.env != cmd.env || o.kind != Kind.Refund || o.resource != cmd.refund))
    ensures Plan(db, cmd).Some? && Commits(db, Plan(db, cmd).value) ==>
              exists c :: c in db.captures && c.org == cmd.org && c.env == cmd.env && c.payment == cmd.payment
                          && Committed(db, Plan(db, cmd).value).refunds
                             == db.refunds + [RefundRow(cmd.refund, cmd.org, cmd.env, cmd.payment, c.id,
                                                        cmd.operation, cmd.amount, Processing, None)]
  {
    hide Valid, OperationKeysHold, Commits, Committed, Plan;
    RefundPlannedExactly(db, cmd);
    OneSettledCapture(db, cmd.payment);
    if Plan(db, cmd).Some? {
      var c :| c in db.captures && c.org == cmd.org && c.env == cmd.env && c.payment == cmd.payment
               && c.status == Succeeded
               && Plan(db, cmd).value
                  == RefundTransaction(RefundRow(cmd.refund, cmd.org, cmd.env, cmd.payment, c.id,
                                                 cmd.operation, cmd.amount, Processing, None));
      var r := RefundRow(cmd.refund, cmd.org, cmd.env, cmd.payment, c.id, cmd.operation, cmd.amount, Processing, None);
      RefundCommitsExactly(db, r);
      RefundCommitsWhen(db, r);
      OneCapture(db, c.id);
      CaptureHasPayment(db, c);
      SumAppend(db.refunds, [r], Outstanding(cmd.org, cmd.payment));
      SumOne(r, Outstanding(cmd.org, cmd.payment));
    }
  }

  lemma CaptureHasPayment(db: Tables, c: CaptureRow)
    requires Valid(db) && c in db.captures
    ensures exists p :: p in db.payments && p.id == c.payment && p.org == c.org && p.env == c.env
  {
    assert CaptureLinked(db, c);
  }

  // --- a finished operation stands -------------------------------------------------------------

  /** No other writer names this operation or the authorization it is about. */
  predicate Leaves(cmd: Command, o: Operation) {
    cmd.Other? ==> forall s :: s in cmd.statements ==>
      && (s.OnOperations? ==> s.operation.row.id != o.id)
      && (s.OnAuthorizations? ==> s.authorization.row.id != o.resource)
  }

  /** The operation and what is bound to it are the same rows in both. */
  ghost predicate Stands(db: Tables, after: Tables, o: Operation) {
    && o in after.operations
    && (forall c :: c in db.captures && c.id == o.resource && c.operation == o.id && o.kind == Kind.Capture ==>
          c in after.captures)
    && (forall r :: r in db.refunds && r.id == o.resource && r.operation == o.id && o.kind == Kind.Refund ==>
          r in after.refunds)
    && (forall a :: a in db.authorizations && a.id == o.resource && a.operation == o.id && o.kind == Authorize ==>
          a in after.authorizations)
  }

  lemma ChangedKeeps<T>(rows: seq<T>, key: T -> Id, change: Change<T>, r: T)
    requires r in rows && (change.Insert? || key(change.row) != key(r))
    ensures r in Changed(rows, key, change)
  {
    var k :| 0 <= k < |rows| && rows[k] == r;
    if change.Update? {
      var i := Position(rows, key, key(change.row));
      assert i.Some? ==> rows[i.value := change.row][k] == r;
    } else if change.Delete? {
      var i := Position(rows, key, key(change.row));
      if i.Some? {
        WithoutAt(rows, i.value, k);
      }
    }
  }

  /** Statements that name neither the operation nor its authorization leave both. */
  lemma {:induction false} OthersLeave(db: Tables, ss: Transaction, o: Operation)
    requires o in db.operations && forall s :: s in ss && s.OnOperations? ==> s.operation.row.id != o.id
    ensures o in After(db, ss).operations
  {
    if ss != [] {
      var front, s := ss[..|ss| - 1], ss[|ss| - 1];
      OthersLeave(db, front, o);
      if s.OnOperations? {
        ChangedKeeps(After(db, front).operations, OperationKey, s.operation, o);
      }
    }
  }

  lemma {:induction false} OthersLeaveAuthorization(db: Tables, ss: Transaction, a: Authorization)
    requires a in db.authorizations && forall s :: s in ss && s.OnAuthorizations? ==> s.authorization.row.id != a.id
    ensures a in RestAfter(db, ss).authorizations
  {
    if ss != [] {
      var front, s := ss[..|ss| - 1], ss[|ss| - 1];
      OthersLeaveAuthorization(db, front, a);
      if s.OnAuthorizations? {
        ChangedKeeps(RestAfter(db, front).authorizations, AuthorizationKey, s.authorization, a);
      }
    }
  }

  lemma OtherKeepsFinished(db: Tables, cmd: Command, o: Operation)
    requires Valid(db) && cmd.Other? && Plan(db, cmd).Some? && Commits(db, cmd.statements) && o in db.operations
    requires o.kind == Authorize ==> Leaves(cmd, o)
    ensures Stands(db, Committed(db, cmd.statements), o)
  {
    hide Valid, Commits, Committed, After, RestAfter;
    CommittedEffects(db, cmd.statements);
    CommittedRest(db, cmd.statements);
    OthersStayApart(db, cmd.statements);
    OthersLeave(db, cmd.statements, o);
    if o.kind == Authorize {
      forall a | a in db.authorizations && a.id == o.resource
        ensures a in Committed(db, cmd.statements).authorizations
      {
        OthersLeaveAuthorization(db, cmd.statements, a);
      }
    }
  }

  /** The binding trigger runs for the operation that a command moved on. */
  lemma MovedIsBound(db: Tables, ss: Transaction, x: Operation)
    requires Commits(db, ss + [OnOperations(Update(x))])
    requires After(db, ss).operations == db.operations && Position(db.operations, OperationKey, x.id).Some?
    ensures !BindingRejects(Committed(db, ss + [OnOperations(Update(x))]), x)
  {
    hide Valid, After;
    var all := ss + [OnOperations(Update(x))];
    assert all[..|all| - 1] == ss;
    var half, w := ExecAll(Work(db, []), ss).value, ExecAll(Work(db, []), all).value;
    EffectsOf(Work(db, []), ss);
    assert OperationWritten(x) in w.events;
    assert !Rejects(w.db, OperationWritten(x));
  }

  /** The tables after a finalization or a review of another operation. */
  lemma MoveKeepsFinished(db: Tables, cmd: Command, o: Operation, x: Operation)
    requires Valid(db) && (cmd.Finalize? || cmd.Review?) && Plan(db, cmd).Some? && Commits(db, Plan(db, cmd).value)
    requires o in db.operations && x in db.operations && x.id == cmd.operation && x.id != o.id
    ensures Stands(db, Committed(db, Plan(db, cmd).value), o)
  {
    hide Valid, Commits, Committed, After, RestAfter, BindingRejects;
    var tx := Plan(db, cmd).value;
    var after := Committed(db, tx);
    var status := if cmd.Finalize? then Verdict(cmd) else RequiresReview;
    MoveEffects(db, cmd, x);
    CommittedEffects(db, tx);
    CommittedRest(db, tx);
    OperationParts(db);
    UpdateMembers(db.operations, OperationKey, x.(status := status));
    NotItsResource(db, after, o, x, status, if cmd.Finalize? then BookedAs(cmd) else None);
  }

  lemma FinalizeMoves(db: Tables, cmd: Command, x: Operation)
    requires cmd.Finalize? && Plan(db, cmd).Some? && Commits(db, Plan(db, cmd).value)
    requires Lookup(db.operations, OperationKey, cmd.operation) == Some(x)
    ensures var tx := Plan(db, cmd).value;
            var s := ResourceUpdate(db, x, Verdict(cmd), BookedAs(cmd));
            && s.Some?
            && After(db, tx).operations == Changed(db.operations, OperationKey, Update(x.(status := Verdict(cmd))))
            && After(db, tx).captures == Then(Seen(db), s.value).captures
            && After(db, tx).refunds == Then(Seen(db), s.value).refunds
            && RestAfter(db, tx).authorizations == RestThen(RestOf(db), s.value).authorizations
            && !BindingRejects(Committed(db, tx), x.(status := Verdict(cmd)))
  {
    hide Commits, Committed, After, RestAfter, BindingRejects, Changed, MoveTo, Booking;
    FinalizeEffects(db, cmd);
    RestOfFinalize(db, cmd, x);
    var p := Parts(db, cmd, x);
    BeforeOperation(db, cmd, x);
    MovedIsBound(db, p.0 + [p.1] + p.2, x.(status := Verdict(cmd)));
  }

  lemma ReviewMoves(db: Tables, cmd: Command, x: Operation)
    requires cmd.Review? && Plan(db, cmd).Some? && Commits(db, Plan(db, cmd).value)
    requires Lookup(db.operations, OperationKey, cmd.operation) == Some(x)
    ensures var tx := Plan(db, cmd).value;
            var s := ResourceUpdate(db, x, RequiresReview, None);
            && s.Some?
            && After(db, tx).operations == Changed(db.operations, OperationKey, Update(x.(status := RequiresReview)))
            && After(db, tx).captures == Then(Seen(db), s.value).captures
            && After(db, tx).refunds == Then(Seen(db), s.value).refunds
            && RestAfter(db, tx).authorizations == RestThen(RestOf(db), s.value).authorizations
            && !BindingRejects(Committed(db, tx), x.(status := RequiresReview))
  {
    hide Commits, Committed, After, RestAfter, BindingRejects, Changed;
    ReviewEffects(db, cmd);
    var s := ResourceUpdate(db, x, RequiresReview, None).value;
    RestSnoc(db, [], s);
    RestUntouched(db, [] + [s], [OnOperations(Update(x.(status := RequiresReview)))]);
    NothingYet(db);
    OneStatement(db, s);
    MovedIsBound(db, [] + [s], x.(status := RequiresReview));
  }

  /** Both commands update the resource and then the operation, and nothing else of the four tables. */
  lemma MoveEffects(db: Tables, cmd: Command, x: Operation)
    requires Valid(db) && (cmd.Finalize? || cmd.Review?) && Plan(db, cmd).Some? && Commits(db, Plan(db, cmd).value)
    requires x in db.operations && x.id == cmd.operation
    ensures var tx := Plan(db, cmd).value;
            var status := if cmd.Finalize? then Verdict(cmd) else RequiresReview;
            var journal := if cmd.Finalize? then BookedAs(cmd) else None;
            var s := ResourceUpdate(db, x, status, journal);
            && s.Some?
            && After(db, tx).operations == Changed(db.operations, OperationKey, Update(x.(status := status)))
            && After(db, tx).captures == Then(Seen(db), s.value).captures
            && After(db, tx).refunds == Then(Seen(db), s.value).refunds
            && RestAfter(db, tx).authorizations == RestThen(RestOf(db), s.value).authorizations
            && !BindingRejects(Committed(db, tx), x.(status := status))
  {
    hide Valid, Commits, Committed, After, RestAfter, BindingRejects, Changed, Plan, ResourceUpdate;
    OperationParts(db);
    FindsRow(db.operations, OperationKey, x);
    if cmd.Finalize? {
      FinalizeMoves(db, cmd, x);
    } else {
      ReviewMoves(db, cmd, x);
    }
  }

  lemma NothingYet(db: Tables)
    ensures RestAfter(db, []) == RestOf(db) && After(db, []) == Seen(db)
  {
  }

  lemma OneStatement(db: Tables, s: Statement)
    requires !s.OnOperations?
    ensures After(db, [] + [s]).operations == db.operations
  {
    AfterSnoc(db, [], s);
  }

  lemma BeforeOperation(db: Tables, cmd: Command, o: Operation)
    requires cmd.Finalize? && PlanFinalize(db, cmd).Some?
    requires Lookup(db.operations, OperationKey, cmd.operation) == Some(o)
    ensures var p := Parts(db, cmd, o);
            && PlanFinalize(db, cmd).value == p.0 + [p.1] + p.2 + [p.3]
            && After(db, p.0 + [p.1] + p.2).operations == db.operations
  {
    hide After;
    var p := Parts(db, cmd, o);
    BookingEffects(db, o, cmd);
    AfterSnoc(db, p.0, p.1);
    if p.2 == [] {
      assert p.0 + [p.1] + p.2 == p.0 + [p.1];
    } else {
      assert p.2 == [p.2[0]];
      AfterSnoc(db, p.0 + [p.1], p.2[0]);
    }
  }

  lemma NotItsCapture(rows: seq<CaptureRow>, after: Tables, o: Operation, x: Operation, c: CaptureRow, d: CaptureRow)
    requires Unique(rows, CaptureKey) && x.id != o.id && x.kind.Capture? && !BindingRejects(after, x)
    requires c in rows && c.id == x.resource && d == c.(status := d.status, journal := d.journal)
    requires after.captures == Changed(rows, CaptureKey, Update(d))
    ensures forall e :: e in rows && e.id == o.resource && e.operation == o.id ==> e in after.captures
  {
    FindsRow(rows, CaptureKey, c);
    UpdateMembers(rows, CaptureKey, d);
    hide Changed;
    forall e | e in rows && e.id == o.resource && e.operation == o.id ensures e in after.captures {
      if e.id == c.id {
        SameRow(rows, CaptureKey, e, c);
      }
    }
  }

  lemma NotItsRefund(rows: seq<RefundRow>, after: Tables, o: Operation, x: Operation, r: RefundRow, q: RefundRow)
    requires Unique(rows, RefundKey) && x.id != o.id && x.kind.Refund? && !BindingRejects(after, x)
    requires r in rows && r.id == x.resource && q == r.(status := q.status, journal := q.journal)
    requires after.refunds == Changed(rows, RefundKey, Update(q))
    ensures forall e :: e in rows && e.id == o.resource && e.operation == o.id ==> e in after.refunds
  {
    FindsRow(rows, RefundKey, r);
    UpdateMembers(rows, RefundKey, q);
    hide Changed;
    forall e | e in rows && e.id == o.resource && e.operation == o.id ensures e in after.refunds {
      if e.id == r.id {
        SameRow(rows, RefundKey, e, r);
      }
    }
  }

  lemma NotItsAuthorization(rows: seq<Authorization>, after: Tables, o: Operation, x: Operation, a: Authorization,
                            b: Authorization)
    requires Unique(rows, AuthorizationKey) && x.id != o.id && x.kind.Authorize? && !BindingRejects(after, x)
    requires a in rows && a.id == x.resource && b == a.(status := b.status)
    requires after.authorizations == Changed(rows, AuthorizationKey, Update(b))
    ensures forall e :: e in rows && e.id == o.resource && e.operation == o.id ==> e in after.authorizations
  {
    FindsRow(rows, AuthorizationKey, a);
    UpdateMembers(rows, AuthorizationKey, b);
    hide Changed;
    forall e | e in rows && e.id == o.resource && e.operation == o.id ensures e in after.authorizations {
      if e.id == a.id {
        SameRow(rows, AuthorizationKey, e, a);
      }
    }
  }

  /** A resource that is bound to one operation cannot be the one that the trigger finds for another. */
  lemma NotItsResource(db: Tables, after: Tables, o: Operation, x: Operation, status: Status, journal: Option<Id>)
    requires Unique(db.captures, CaptureKey) && Unique(db.refunds, RefundKey)
    requires Unique(db.authorizations, AuthorizationKey)
    requires x.id != o.id && o in after.operations && !BindingRejects(after, x.(status := status))
    requires var s := ResourceUpdate(db, x, status, journal);
             && s.Some?
             && after.captures == Then(Seen(db), s.value).captures
             && after.refunds == Then(Seen(db), s.value).refunds
             && after.authorizations == RestThen(RestOf(db), s.value).authorizations
    ensures Stands(db, after, o)
  {
    hide BindingRejects, Changed;
    var s, y := ResourceUpdate(db, x, status, journal).value, x.(status := status);
    if s.OnCaptures? {
      NotItsCapture(db.captures, after, o, y, Lookup(db.captures, CaptureKey, x.resource).value, s.capture.row);
    } else if s.OnRefunds? {
      NotItsRefund(db.refunds, after, o, y, Lookup(db.refunds, RefundKey, x.resource).value, s.refund.row);
    } else {
      NotItsAuthorization(db.authorizations, after, o, y, Lookup(db.authorizations, AuthorizationKey, x.resource).value,
                          s.authorization.row);
    }
  }

  lemma NewKeepsFinished(db: Tables, cmd: Command, o: Operation)
    requires (cmd.InitiateCapture? || cmd.InitiateRefund?) && Plan(db, cmd).Some? && Commits(db, Plan(db, cmd).value)
    requires o in db.operations
    ensures Stands(db, Committed(db, Plan(db, cmd).value), o)
  {
    hide Commits, Committed, After, RestAfter;
    var tx := Plan(db, cmd).value;
    CommittedEffects(db, tx);
    CommittedRest(db, tx);
    AfterTwo(db, tx[0], tx[1]);
    RestUntouched(db, [], tx);
    NothingYet(db);
    assert [] + tx == tx;
  }

  /** Whatever a command commits, an operation that has finished and the resource bound to it stand. */
  lemma CommandKeepsFinished(db: Tables, cmd: Command, o: Operation)
    requires Valid(db) && Plan(db, cmd).Some? && Commits(db, Plan(db, cmd).value)
    requires o in db.operations && (o.status == Succeeded || o.status == Failed)
    requires o.kind == Authorize ==> Leaves(cmd, o)
    ensures Stands(db, Committed(db, Plan(db, cmd).value), o)
  {
    hide Valid, Commits, Committed, Stands, Leaves;
    if cmd.Other? {
      OtherKeepsFinished(db, cmd, o);
    } else if cmd.Finalize? || cmd.Review? {
      var x := Lookup(db.operations, OperationKey, cmd.operation).value;
      if x.id == o.id {
        OperationParts(db);
        SameRow(db.operations, OperationKey, x, o);
        var p :| p in db.payments && p.id == o.payment;
        WritesExactly(db, cmd, o, p);
      }
      MoveKeepsFinished(db, cmd, o, x);
    } else {
      NewKeepsFinished(db, cmd, o);
    }
  }

  lemma StandsOn(db: Tables, mid: Tables, after: Tables, o: Operation)
    requires Stands(db, mid, o) && Stands(mid, after, o)
    ensures Stands(db, after, o)
  {
  }

  /**
   Over every run: once an operation is SUCCEEDED or FAILED, it and the capture, refund or authorization
   bound to it stay the rows they are, whatever the services do later. For an authorization the other
   writers must leave the two rows alone as well; captures and refunds they cannot reach.
   */
  lemma {:induction false} FinishedNeverChanges(cmds: seq<Command>, more: seq<Command>, o: Operation)
    requires o in Run(EMPTY, Sent(cmds)).operations && (o.status == Succeeded || o.status == Failed)
    requires o.kind == Authorize ==> forall cmd :: cmd in more ==> Leaves(cmd, o)
    ensures Stands(Run(EMPTY, Sent(cmds)), Run(EMPTY, Sent(cmds + more)), o)
  {
    hide Valid, Commits, Stands, Leaves, Plan;
    if more == [] {
      assert cmds + more == cmds;
      StandsStill(Run(EMPTY, Sent(cmds)), o);
    } else {
      var front, cmd := more[..|more| - 1], more[|more| - 1];
      assert (cmds + more)[..|cmds + more| - 1] == cmds + front;
      var txs := Sent(cmds + front);
      var mid := Run(EMPTY, txs);
      FinishedNeverChanges(cmds, front, o);
      InMid(Run(EMPTY, Sent(cmds)), mid, o);
      RunValid(txs);
      if Plan(mid, cmd).Some? {
        var tx := Plan(mid, cmd).value;
        assert (txs + [tx])[..|txs|] == txs;
        if Commits(mid, tx) {
          CommandKeepsFinished(mid, cmd, o);
          StandsOn(Run(EMPTY, Sent(cmds)), mid, Committed(mid, tx), o);
        }
      }
    }
  }

  lemma StandsStill(db: Tables, o: Operation)
    requires o in db.operations
    ensures Stands(db, db, o)
  {
  }

  lemma InMid(db: Tables, mid: Tables, o: Operation)
    requires Stands(db, mid, o)
    ensures o in mid.operations
  {
  }
}
