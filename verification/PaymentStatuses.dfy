/**
 The stored status of a payment against its rows. Migration 0019 derives every payment's status from its
 authorization, its capture and its refunds; afterwards only `transition` writes it. Over every run of the
 services the stored status is the derived one, except that an authorised payment without a capture may
 have expired; so the finalizer always finds the payment where it can make its move.
 */
module PaymentStatuses {
  import opened Basics
  import opened Rows
  import opened Sums
  import opened Database
  import opened RefundReservations
  import opened RefundExactness
  import opened ResourceWrites
  import opened PaymentServices
  import opened ServiceOutcomes

  predicate HoldIs(db: Tables, id: Id, status: Status) {
    exists a :: a in db.authorizations && a.payment == id && a.status == status
  }

  predicate CaptureIs(db: Tables, id: Id, status: Status) {
    exists c :: c in db.captures && c.payment == id && c.status == status
  }

  /** The backfill of migration 0019; the first match wins. */
  function Derived(db: Tables, id: Id): PaymentStatus {
    var total := Sum(db.refunds, RefundedOf(id));
    if exists c :: c in db.captures && c.payment == id && c.status == Succeeded && total > 0 && total == c.amount
    then Refunded
    else if CaptureIs(db, id, Succeeded) && total > 0 then PartiallyRefunded
    else if CaptureIs(db, id, Succeeded) then Captured
    else if HoldIs(db, id, Failed) || CaptureIs(db, id, Failed) then PaymentFailed
    else if HoldIs(db, id, Succeeded) then Authorised
    else Created
  }

  predicate Uncaptured(db: Tables, id: Id) {
    forall c :: c in db.captures ==> c.payment != id
  }

  predicate StatusHolds(db: Tables, p: Payment) {
    || p.status == Derived(db, p.id)
    || (p.status == Expired && Derived(db, p.id) == Authorised && Uncaptured(db, p.id))
  }

  // --- the other writers -----------------------------------------------------------------------

  /** `initiate_authorization`. */
  function HoldTransaction(a: Authorization): Transaction {
    [OnOperations(Insert(Operation(a.operation, a.org, a.env, a.payment, Authorize, a.id, a.status))),
     OnAuthorizations(Insert(a))]
  }

  predicate LeavesPayments(s: Statement) {
    !s.OnPayments? && !s.OnAuthorizations? && !s.OnOperations?
  }

  /**
   The writers of payments beside the four commands: one that leaves payments, authorizations and
   operations alone, `create_payment_intent`, `initiate_authorization`, and `expire_authorizations`.
   */
  ghost predicate Known(db: Tables, cmd: Command) {
    cmd.Other? ==>
      || (forall s :: s in cmd.statements ==> LeavesPayments(s))
      || (exists p :: cmd.statements == [OnPayments(Insert(p))] && p.status == Created)
      || (exists a :: cmd.statements == HoldTransaction(a) && a.status == Processing)
      || (exists p :: && p in db.payments && p.status == Authorised
                      && HoldIs(db, p.id, Succeeded) && Uncaptured(db, p.id)
                      && cmd.statements == [OnPayments(Update(p.(status := Expired)))])
  }

  ghost predicate KnownRun(cmds: seq<Command>) {
    forall k :: 0 <= k < |cmds| ==> Known(Run(EMPTY, Sent(cmds[..k])), cmds[k])
  }

  // --- what holds beside the statuses ----------------------------------------------------------

  predicate OfHold(o: Operation, a: Authorization) {
    && a.id == o.resource && a.org == o.org && a.env == o.env && a.payment == o.payment && a.operation == o.id
    && a.status == o.status
  }

  /** Every authorize operation has its authorization, in its own state. */
  ghost predicate HoldsBound(db: Tables) {
    forall o :: o in db.operations && o.kind.Authorize? ==> exists a :: a in db.authorizations && OfHold(o, a)
  }

  /** A capture is only made on a succeeded authorization, a refund only of a succeeded capture. */
  ghost predicate InOrder(db: Tables) {
    && (forall c :: c in db.captures ==> HoldIs(db, c.payment, Succeeded))
    && (forall r :: r in db.refunds ==> CaptureIs(db, r.payment, Succeeded))
  }

  ghost predicate Sound(db: Tables) {
    HoldsBound(db) && InOrder(db) && forall p :: p in db.payments ==> StatusHolds(db, p)
  }

  lemma OneHoldOf(db: Tables, id: Id)
    requires Valid(db)
    ensures forall a, b :: a in db.authorizations && b in db.authorizations && a.payment == b.payment == id ==> a == b
  {
    forall a, b | a in db.authorizations && b in db.authorizations && a.payment == b.payment == id ensures a == b {
      var p :| p in db.payments && p.id == id && p.org == a.org && p.env == a.env;
      var q :| q in db.payments && q.id == id && q.org == b.org && q.env == b.env;
      SameRow(db.payments, PaymentKey, p, q);
      assert AuthorizationsClash(a, b);
    }
  }

  // --- rows of one payment ---------------------------------------------------------------------

  /** The rows of this payment are the same in both. */
  ghost predicate SameFor(db: Tables, after: Tables, id: Id) {
    && (forall a: Authorization :: a.payment == id ==> (a in db.authorizations <==> a in after.authorizations))
    && (forall c: CaptureRow :: c.payment == id ==> (c in db.captures <==> c in after.captures))
    && Sum(db.refunds, RefundedOf(id)) == Sum(after.refunds, RefundedOf(id))
  }

  lemma SameDerived(db: Tables, after: Tables, id: Id)
    requires SameFor(db, after, id)
    ensures Derived(db, id) == Derived(after, id) && (Uncaptured(db, id) <==> Uncaptured(after, id))
    ensures forall s :: HoldIs(db, id, s) <==> HoldIs(after, id, s)
  {
    forall s ensures HoldIs(db, id, s) <==> HoldIs(after, id, s)
      ensures CaptureIs(db, id, s) <==> CaptureIs(after, id, s)
    {
    }
  }

  lemma UnrefundedTotal(db: Tables, id: Id)
    requires InOrder(db) && !CaptureIs(db, id, Succeeded)
    ensures Sum(db.refunds, RefundedOf(id)) == 0
  {
    SumZero(db.refunds, RefundedOf(id));
  }

  // --- an operation moves on -------------------------------------------------------------------

  function Target(cmd: Command): Status
    requires cmd.Finalize? || cmd.Review?
  {
    if cmd.Review? then RequiresReview else if cmd.success then Succeeded else Failed
  }

  /** A committed finalization or review of this operation. */
  ghost predicate MovesOn(db: Tables, cmd: Command, o: Operation) {
    && (cmd.Finalize? || cmd.Review?) && o in db.operations && o.id == cmd.operation
    && Plan(db, cmd).Some? && Commits(db, Plan(db, cmd).value)
  }

  lemma ReviewLeavesPayments(db: Tables, cmd: Command)
    requires cmd.Review? && Plan(db, cmd).Some? && Commits(db, Plan(db, cmd).value)
    ensures Committed(db, Plan(db, cmd).value).payments == db.payments
  {
    hide Commits, Committed;
    var o := Lookup(db.operations, OperationKey, cmd.operation).value;
    CommittedRest(db, Plan(db, cmd).value);
    var s := ResourceUpdate(db, o, RequiresReview, None).value;
    RestSnoc(db, [], s);
    RestUntouched(db, [] + [s], [OnOperations(Update(o.(status := RequiresReview)))]);
  }

  lemma MoveTables(db: Tables, cmd: Command, o: Operation)
    requires Valid(db) && MovesOn(db, cmd, o)
    ensures var after := Committed(db, Plan(db, cmd).value);
            var journal := if cmd.Finalize? then BookedAs(cmd) else None;
            var s := ResourceUpdate(db, o, Target(cmd), journal);
            && s.Some?
            && after.operations == Changed(db.operations, OperationKey, Update(o.(status := Target(cmd))))
            && after.captures == Then(Seen(db), s.value).captures
            && after.refunds == Then(Seen(db), s.value).refunds
            && after.authorizations == RestThen(RestOf(db), s.value).authorizations
            && (o.status == Processing || o.status == RequiresReview)
  {
    hide Valid, Commits, Committed, After, RestAfter, BindingRejects, Plan, ResourceUpdate, Changed;
    MoveEffects(db, cmd, o);
    CommittedEffects(db, Plan(db, cmd).value);
    CommittedRest(db, Plan(db, cmd).value);
    OperationParts(db);
    var p :| p in db.payments && p.id == o.payment;
    WritesExactly(db, cmd, o, p);
  }

  lemma HoldMoved(db: Tables, cmd: Command, o: Operation, a: Authorization)
    requires Valid(db) && MovesOn(db, cmd, o) && o.kind.Authorize? && a in db.authorizations && OfHold(o, a)
    ensures var after := Committed(db, Plan(db, cmd).value);
            && !Terminal(o.status)
            && after.operations == Changed(db.operations, OperationKey, Update(o.(status := Target(cmd))))
            && after.authorizations == Changed(db.authorizations, AuthorizationKey, Update(a.(status := Target(cmd))))
            && after.captures == db.captures && after.refunds == db.refunds
  {
    hide Valid, Commits, Committed, Plan, Changed;
    MoveTables(db, cmd, o);
    OperationParts(db);
    FindsRow(db.authorizations, AuthorizationKey, a);
  }

  lemma CaptureMoved(db: Tables, cmd: Command, o: Operation, c: CaptureRow)
    requires Valid(db) && MovesOn(db, cmd, o) && o.kind.Capture? && c in db.captures && OfCapture(o, c)
    ensures var after := Committed(db, Plan(db, cmd).value);
            && !Terminal(o.status)
            && after.operations == Changed(db.operations, OperationKey, Update(o.(status := Target(cmd))))
            && after.authorizations == db.authorizations && after.refunds == db.refunds
            && exists j ::
                 after.captures == Changed(db.captures, CaptureKey, Update(c.(status := Target(cmd), journal := j)))
  {
    hide Valid, Commits, Committed, Plan, Changed;
    MoveTables(db, cmd, o);
    OperationParts(db);
    FindsRow(db.captures, CaptureKey, c);
  }

  lemma RefundMoved(db: Tables, cmd: Command, o: Operation, r: RefundRow)
    requires Valid(db) && MovesOn(db, cmd, o) && o.kind.Refund? && r in db.refunds && OfRefund(o, r)
    ensures var after := Committed(db, Plan(db, cmd).value);
            && !Terminal(o.status)
            && after.operations == Changed(db.operations, OperationKey, Update(o.(status := Target(cmd))))
            && after.authorizations == db.authorizations && after.captures == db.captures
            && exists j ::
                 after.refunds == Changed(db.refunds, RefundKey, Update(r.(status := Target(cmd), journal := j)))
  {
    hide Valid, Commits, Committed, Plan, Changed;
    MoveTables(db, cmd, o);
    OperationParts(db);
    FindsRow(db.refunds, RefundKey, r);
  }

  // --- authorizations --------------------------------------------------------------------------

  /** No capture or refund of the payment is there before its authorization has succeeded. */
  lemma NothingBeforeHold(db: Tables, a: Authorization)
    requires Valid(db) && InOrder(db) && a in db.authorizations && a.status != Succeeded
    ensures Uncaptured(db, a.payment)
  {
    OneHoldOf(db, a.payment);
    hide Valid;
  }

  lemma HoldBoundAfter(db: Tables, after: Tables, o: Operation, a: Authorization, status: Status)
    requires HoldsBound(db) && o in db.operations && o.kind.Authorize? && a in db.authorizations && OfHold(o, a)
    requires Unique(db.operations, OperationKey) && Unique(db.authorizations, AuthorizationKey)
    requires after.operations == Changed(db.operations, OperationKey, Update(o.(status := status)))
    requires after.authorizations == Changed(db.authorizations, AuthorizationKey, Update(a.(status := status)))
    ensures HoldsBound(after)
  {
    UpdateMembers(db.operations, OperationKey, o.(status := status));
    UpdateMembers(db.authorizations, AuthorizationKey, a.(status := status));
    forall x | x in after.operations && x.kind.Authorize?
      ensures exists b :: b in after.authorizations && OfHold(x, b)
    {
      if x.id == o.id {
        assert a.(status := status) in after.authorizations && OfHold(x, a.(status := status));
      } else {
        var b :| b in db.authorizations && OfHold(x, b);
        assert b.id == a.id ==> b == a by {
          if b.id == a.id { SameRow(db.authorizations, AuthorizationKey, a, b); }
        }
        assert b in after.authorizations;
      }
    }
  }

  lemma DerivedByHold(db: Tables, a: Authorization)
    requires a in db.authorizations && forall b :: b in db.authorizations && b.payment == a.payment ==> b == a
    requires Uncaptured(db, a.payment)
    ensures Derived(db, a.payment)
         == if a.status == Succeeded then Authorised else if a.status == Failed then PaymentFailed else Created
  {
    assert HoldIs(db, a.payment, a.status);
  }

  /** The payment that a finalization moves, and every other as it was. */
  lemma PaymentsAfterMove(db: Tables, cmd: Command, o: Operation, p: Payment)
    requires Valid(db) && MovesOn(db, cmd, o) && p in db.payments && p.id == o.payment
    ensures var after := Committed(db, Plan(db, cmd).value);
            && (cmd.Finalize? && o.kind == Authorize ==>
                  forall x :: x in after.payments ==>
                    (x in db.payments && x.id != p.id)
                    || x == p.(status := if cmd.success then Authorised else PaymentFailed))
            && (cmd.Finalize? && o.kind == Kind.Capture ==>
                  forall x :: x in after.payments ==>
                    (x in db.payments && x.id != p.id)
                    || x == p.(status := if cmd.success then Captured else PaymentFailed))
            && (cmd.Review? ==> after.payments == db.payments)
  {
    hide Valid, Commits, Committed, Plan;
    if cmd.Review? {
      ReviewLeavesPayments(db, cmd);
    } else {
      FinalizedPayment(db, cmd, o, p);
    }
  }

  lemma HoldsStay(db: Tables, after: Tables, a: Authorization, status: Status)
    requires Unique(db.authorizations, AuthorizationKey) && a in db.authorizations
    requires after.authorizations == Changed(db.authorizations, AuthorizationKey, Update(a.(status := status)))
    ensures a.(status := status) in after.authorizations
    ensures forall b :: b in after.authorizations && b != a.(status := status) ==>
              b in db.authorizations && b.id != a.id
    ensures forall b :: b in db.authorizations && b != a ==> b in after.authorizations
  {
    UpdateMembers(db.authorizations, AuthorizationKey, a.(status := status));
    forall b | b in db.authorizations && b != a ensures b in after.authorizations {
      if b.id == a.id { SameRow(db.authorizations, AuthorizationKey, a, b); }
    }
  }

  lemma HoldStep(db: Tables, cmd: Command, o: Operation, a: Authorization)
    requires Valid(db) && Sound(db) && MovesOn(db, cmd, o)
    requires o.kind.Authorize? && a in db.authorizations && OfHold(o, a)
    ensures Sound(Committed(db, Plan(db, cmd).value))
  {
    hide Valid, Commits, Committed, Plan, Changed, Derived;
    var after := Committed(db, Plan(db, cmd).value);
    HoldMoved(db, cmd, o, a);
    OperationParts(db);
    CommittedValid(db, Plan(db, cmd).value);
    HoldBoundAfter(db, after, o, a, Target(cmd));
    HoldsStay(db, after, a, Target(cmd));
    NothingBeforeHold(db, a);
    OneHoldOf(db, a.payment);
    OneHoldOf(after, a.payment);
    DerivedByHold(db, a);
    DerivedByHold(after, a.(status := Target(cmd)));
    forall c | c in after.captures ensures HoldIs(after, c.payment, Succeeded) {
      var b :| b in db.authorizations && b.payment == c.payment && b.status == Succeeded;
      assert b in after.authorizations;
    }
    forall r | r in after.refunds ensures CaptureIs(after, r.payment, Succeeded) {
      assert CaptureIs(db, r.payment, Succeeded);
    }
    var p :| p in db.payments && p.id == o.payment;
    PaymentsAfterMove(db, cmd, o, p);
    forall x | x in after.payments ensures StatusHolds(after, x) {
      if x.id != o.payment {
        assert SameFor(db, after, x.id);
        SameDerived(db, after, x.id);
      } else if cmd.Review? {
        assert StatusHolds(db, x);
      }
    }
  }

  // --- captures --------------------------------------------------------------------------------

  lemma DerivedByCapture(db: Tables, c: CaptureRow)
    requires c in db.captures && forall d :: d in db.captures && d.payment == c.payment ==> d == c
    requires HoldIs(db, c.payment, Succeeded) && !HoldIs(db, c.payment, Failed)
    requires Sum(db.refunds, RefundedOf(c.payment)) == 0
    ensures Derived(db, c.payment)
         == if c.status == Succeeded then Captured else if c.status == Failed then PaymentFailed else Authorised
  {
    assert CaptureIs(db, c.payment, c.status);
  }

  lemma OtherOperations(db: Tables, after: Tables, o: Operation, status: Status)
    requires HoldsBound(db) && o in db.operations && !o.kind.Authorize? && Unique(db.operations, OperationKey)
    requires after.operations == Changed(db.operations, OperationKey, Update(o.(status := status)))
    requires after.authorizations == db.authorizations
    ensures HoldsBound(after)
  {
    UpdateMembers(db.operations, OperationKey, o.(status := status));
  }

  lemma CapturesStay(db: Tables, after: Tables, c: CaptureRow, d: CaptureRow)
    requires Unique(db.captures, CaptureKey) && c in db.captures && d.id == c.id
    requires after.captures == Changed(db.captures, CaptureKey, Update(d))
    ensures d in after.captures
    ensures forall x :: x in after.captures && x != d ==> x in db.captures && x != c
    ensures forall x :: x in db.captures && x != c ==> x in after.captures
  {
    UpdateMembers(db.captures, CaptureKey, d);
    forall x | x in db.captures && x != c ensures x in after.captures {
      if x.id == c.id { SameRow(db.captures, CaptureKey, c, x); }
    }
  }

  lemma CaptureDecides(db: Tables, c: CaptureRow)
    requires Valid(db) && InOrder(db) && c in db.captures && Sum(db.refunds, RefundedOf(c.payment)) == 0
    ensures Derived(db, c.payment)
         == if c.status == Succeeded then Captured else if c.status == Failed then PaymentFailed else Authorised
  {
    OneHoldOf(db, c.payment);
    OneSettledCapture(db, c.payment);
    hide Valid, Derived;
    assert HoldIs(db, c.payment, Succeeded);
    DerivedByCapture(db, c);
  }

  lemma UnrefundedBefore(db: Tables, c: CaptureRow)
    requires Valid(db) && InOrder(db) && c in db.captures && c.status != Succeeded
    ensures Sum(db.refunds, RefundedOf(c.payment)) == 0
  {
    OneSettledCapture(db, c.payment);
    hide Valid;
    UnrefundedTotal(db, c.payment);
  }

  lemma OrderAfterCapture(db: Tables, after: Tables, c: CaptureRow, d: CaptureRow)
    requires InOrder(db) && Unique(db.captures, CaptureKey) && c in db.captures && c.status != Succeeded
    requires d.id == c.id && d.payment == c.payment && after.captures == Changed(db.captures, CaptureKey, Update(d))
    requires after.authorizations == db.authorizations && after.refunds == db.refunds
    ensures InOrder(after)
  {
    hide Changed;
    CapturesStay(db, after, c, d);
    forall x | x in after.captures ensures HoldIs(after, x.payment, Succeeded) {
      assert HoldIs(db, x.payment, Succeeded);
    }
    forall r | r in after.refunds ensures CaptureIs(after, r.payment, Succeeded) {
      var x :| x in db.captures && x.payment == r.payment && x.status == Succeeded;
      assert x in after.captures;
    }
  }

  lemma CaptureStep(db: Tables, cmd: Command, o: Operation, c: CaptureRow)
    requires Valid(db) && Sound(db) && MovesOn(db, cmd, o) && o.kind.Capture? && c in db.captures && OfCapture(o, c)
    ensures Sound(Committed(db, Plan(db, cmd).value))
  {
    hide Valid, Commits, Committed, Plan, Changed, Derived;
    var after := Committed(db, Plan(db, cmd).value);
    CaptureMoved(db, cmd, o, c);
    var j :| after.captures == Changed(db.captures, CaptureKey, Update(c.(status := Target(cmd), journal := j)));
    var d := c.(status := Target(cmd), journal := j);
    OperationParts(db);
    CommittedValid(db, Plan(db, cmd).value);
    OtherOperations(db, after, o, Target(cmd));
    UpdateMembers(db.captures, CaptureKey, d);
    OrderAfterCapture(db, after, c, d);
    UnrefundedBefore(db, c);
    CaptureDecides(db, c);
    CaptureDecides(after, d);
    hide InOrder, HoldsBound;
    var p :| p in db.payments && p.id == o.payment;
    PaymentsAfterMove(db, cmd, o, p);
    forall x | x in after.payments ensures StatusHolds(after, x) {
      if x.id != o.payment {
        CaptureElsewhere(db, after, c, d, x.id);
        SameDerived(db, after, x.id);
      } else if cmd.Review? {
        assert StatusHolds(db, x);
      }
    }
  }

  lemma CaptureElsewhere(db: Tables, after: Tables, c: CaptureRow, d: CaptureRow, id: Id)
    requires Unique(db.captures, CaptureKey) && c in db.captures && d.id == c.id && d.payment == c.payment != id
    requires after.captures == Changed(db.captures, CaptureKey, Update(d))
    requires after.authorizations == db.authorizations && after.refunds == db.refunds
    ensures SameFor(db, after, id)
  {
    hide Changed;
    CapturesStay(db, after, c, d);
  }

  // --- refunds ---------------------------------------------------------------------------------

  lemma MovedTotal(rows: seq<RefundRow>, r: RefundRow, q: RefundRow, id: Id)
    requires r in rows && Unique(rows, RefundKey) && q.id == r.id && q.payment == r.payment && q.amount == r.amount
    ensures Sum(Changed(rows, RefundKey, Update(q)), RefundedOf(id))
         == Sum(rows, RefundedOf(id)) - RefundedOf(id)(r) + RefundedOf(id)(q)
  {
    FindsRow(rows, RefundKey, r);
    var i := Position(rows, RefundKey, r.id).value;
    SumUpdate(rows, i, q, RefundedOf(id));
  }

  lemma RefundedIsPositive(rows: seq<RefundRow>, r: RefundRow)
    requires r in rows && r.status == Succeeded && forall q :: q in rows ==> q.amount > 0
    ensures Sum(rows, RefundedOf(r.payment)) > 0
  {
    var i :| 0 <= i < |rows| && rows[i] == r;
    SumAt(rows, i, RefundedOf(r.payment));
    SumNonNegative(rows[..i], RefundedOf(r.payment));
    SumNonNegative(rows[i + 1..], RefundedOf(r.payment));
  }

  lemma OrderAfterRefund(db: Tables, after: Tables, r: RefundRow, q: RefundRow)
    requires InOrder(db) && Unique(db.refunds, RefundKey) && r in db.refunds
    requires q.id == r.id && q.payment == r.payment && after.refunds == Changed(db.refunds, RefundKey, Update(q))
    requires after.authorizations == db.authorizations && after.captures == db.captures
    ensures InOrder(after) && q in after.refunds
  {
    hide Changed;
    UpdateMembers(db.refunds, RefundKey, q);
    forall x | x in after.refunds ensures CaptureIs(after, x.payment, Succeeded) {
      assert CaptureIs(db, x.payment, Succeeded) by { assert x == q || x in db.refunds; }
    }
    forall c | c in after.captures ensures HoldIs(after, c.payment, Succeeded) {
      assert HoldIs(db, c.payment, Succeeded);
    }
  }

  lemma RefundStep(db: Tables, cmd: Command, o: Operation, r: RefundRow)
    requires Valid(db) && Sound(db) && MovesOn(db, cmd, o) && o.kind.Refund? && r in db.refunds && OfRefund(o, r)
    ensures Sound(Committed(db, Plan(db, cmd).value))
  {
    hide Valid, Commits, Committed, Plan, Changed, Derived;
    var after := Committed(db, Plan(db, cmd).value);
    RefundMoved(db, cmd, o, r);
    var j :| after.refunds == Changed(db.refunds, RefundKey, Update(r.(status := Target(cmd), journal := j)));
    var q := r.(status := Target(cmd), journal := j);
    OperationParts(db);
    OtherOperations(db, after, o, Target(cmd));
    OrderAfterRefund(db, after, r, q);
    assert CaptureIs(after, q.payment, Succeeded);
    hide InOrder, HoldsBound;
    var p :| p in db.payments && p.id == o.payment;
    forall x | x in after.payments ensures StatusHolds(after, x) {
      MovedTotal(db.refunds, r, q, x.id);
      if x.id == o.payment && cmd.Finalize? && cmd.success {
        RefundSettles(db, cmd, o, p, q, x);
      } else {
        RefundLeaves(db, cmd, o, p, x);
        SameDerived(db, after, x.id);
      }
    }
  }

  lemma RefundLeaves(db: Tables, cmd: Command, o: Operation, p: Payment, x: Payment)
    requires Valid(db) && MovesOn(db, cmd, o) && o.kind.Refund? && p in db.payments && p.id == o.payment
    requires x in Committed(db, Plan(db, cmd).value).payments && (x.id != o.payment || cmd.Review? || !cmd.success)
    ensures x in db.payments
  {
    hide Valid, Commits, Committed, Plan;
    if cmd.Review? {
      ReviewLeavesPayments(db, cmd);
    } else {
      FinalizedPayment(db, cmd, o, p);
    }
  }

  /** After a refund that succeeded the payment stands where the backfill would put it. */
  lemma RefundSettles(db: Tables, cmd: Command, o: Operation, p: Payment, q: RefundRow, x: Payment)
    requires Valid(db) && MovesOn(db, cmd, o) && cmd.Finalize? && cmd.success && o.kind.Refund?
    requires p in db.payments && p.id == o.payment
    requires var after := Committed(db, Plan(db, cmd).value);
             && x in after.payments && x.id == o.payment && CaptureIs(after, o.payment, Succeeded)
             && q in after.refunds && q.payment == o.payment && q.status == Succeeded
    ensures x.status == Derived(Committed(db, Plan(db, cmd).value), x.id)
  {
    hide Valid, Commits, Committed, Plan;
    FinalizedPayment(db, cmd, o, p);
    CommittedChecks(db, Plan(db, cmd).value);
    RefundedIsPositive(Committed(db, Plan(db, cmd).value).refunds, q);
  }

  // --- the other commands ----------------------------------------------------------------------

  /** Rows of no payment's status were written. */
  lemma NothingDecided(db: Tables, after: Tables)
    requires Sound(db) && after.payments == db.payments && after.authorizations == db.authorizations
    requires after.captures == db.captures && after.operations == db.operations && after.refunds == db.refunds
    ensures Sound(after)
  {
    hide Derived;
    forall id ensures SameFor(db, after, id) {
    }
    forall p | p in after.payments ensures StatusHolds(after, p) {
      SameDerived(db, after, p.id);
    }
    forall c | c in after.captures ensures HoldIs(after, c.payment, Succeeded) {
      assert HoldIs(db, c.payment, Succeeded);
    }
    forall r | r in after.refunds ensures CaptureIs(after, r.payment, Succeeded) {
      assert CaptureIs(db, r.payment, Succeeded);
    }
  }

  function WithNewCapture(db: Tables, c: CaptureRow, o: Operation): Tables {
    db.(operations := db.operations + [o], captures := db.captures + [c])
  }

  lemma NewCaptureOrder(db: Tables, c: CaptureRow, o: Operation)
    requires InOrder(db) && HoldsBound(db) && o.kind.Capture? && HoldIs(db, c.payment, Succeeded)
    ensures InOrder(WithNewCapture(db, c, o)) && HoldsBound(WithNewCapture(db, c, o))
  {
    var after := WithNewCapture(db, c, o);
    forall x | x in after.captures ensures HoldIs(after, x.payment, Succeeded) {
      assert x == c || x in db.captures;
      assert HoldIs(db, x.payment, Succeeded);
    }
    forall r | r in after.refunds ensures CaptureIs(after, r.payment, Succeeded) {
      var x :| x in db.captures && x.payment == r.payment && x.status == Succeeded;
      assert x in after.captures;
    }
  }

  lemma NewCaptureStep(db: Tables, c: CaptureRow, o: Operation)
    requires Valid(db) && Sound(db) && Uncaptured(db, c.payment)
    requires o.kind.Capture? && c.status == Processing && HoldIs(db, c.payment, Succeeded)
    requires forall p :: p in db.payments && p.id == c.payment ==> p.status != Expired
    ensures Sound(WithNewCapture(db, c, o))
  {
    var after := WithNewCapture(db, c, o);
    OneHoldOf(db, c.payment);
    hide Valid, Derived;
    NewCaptureOrder(db, c, o);
    UnrefundedTotal(db, c.payment);
    var a :| a in db.authorizations && a.payment == c.payment && a.status == Succeeded;
    DerivedByHold(db, a);
    assert c in after.captures && HoldIs(after, c.payment, Succeeded) && !HoldIs(after, c.payment, Failed);
    DerivedByCapture(after, c);
    hide InOrder, HoldsBound;
    forall p | p in after.payments ensures StatusHolds(after, p) {
      assert StatusHolds(db, p);
      if p.id != c.payment {
        NewCaptureElsewhere(db, c, o, p.id);
        SameDerived(db, after, p.id);
      }
    }
  }

  lemma NewCaptureElsewhere(db: Tables, c: CaptureRow, o: Operation, id: Id)
    requires id != c.payment
    ensures SameFor(db, WithNewCapture(db, c, o), id)
  {
  }

  lemma NewRefundStep(db: Tables, r: RefundRow, o: Operation)
    requires Sound(db) && o.kind.Refund? && r.status == Processing && CaptureIs(db, r.payment, Succeeded)
    ensures Sound(db.(operations := db.operations + [o], refunds := db.refunds + [r]))
  {
    hide Derived;
    var after := db.(operations := db.operations + [o], refunds := db.refunds + [r]);
    forall x | x in after.refunds ensures CaptureIs(after, x.payment, Succeeded) {
      assert CaptureIs(db, x.payment, Succeeded);
    }
    forall c | c in after.captures ensures HoldIs(after, c.payment, Succeeded) {
      assert HoldIs(db, c.payment, Succeeded);
    }
    forall p | p in after.payments ensures StatusHolds(after, p) {
      SumAppend(db.refunds, [r], RefundedOf(p.id));
      SumOne(r, RefundedOf(p.id));
      assert SameFor(db, after, p.id);
      SameDerived(db, after, p.id);
    }
  }

  lemma NewPaymentStep(db: Tables, p: Payment)
    requires Valid(db) && Sound(db) && p.status == Created && forall q :: q in db.payments ==> q.id != p.id
    ensures Sound(db.(payments := db.payments + [p]))
  {
    var after := db.(payments := db.payments + [p]);
    forall a | a in db.authorizations ensures a.payment != p.id {
      assert HasPayment(db.payments, a.payment, a.org, a.env);
    }
    forall c | c in db.captures ensures c.payment != p.id {
      assert CaptureLinked(db, c);
    }
    hide Valid;
    DerivedAlone(after, p.id);
    hide Derived;
    forall c | c in after.captures ensures HoldIs(after, c.payment, Succeeded) {
      assert HoldIs(db, c.payment, Succeeded);
    }
    forall r | r in after.refunds ensures CaptureIs(after, r.payment, Succeeded) {
      assert CaptureIs(db, r.payment, Succeeded);
    }
    forall q | q in after.payments ensures StatusHolds(after, q) {
      if q != p {
        assert SameFor(db, after, q.id);
        SameDerived(db, after, q.id);
      }
    }
  }

  function WithNewHold(db: Tables, a: Authorization, o: Operation): Tables {
    db.(operations := db.operations + [o], authorizations := db.authorizations + [a])
  }

  lemma NewHoldOrder(db: Tables, a: Authorization, o: Operation)
    requires InOrder(db) && HoldsBound(db) && OfHold(o, a)
    ensures InOrder(WithNewHold(db, a, o)) && HoldsBound(WithNewHold(db, a, o))
  {
    var after := WithNewHold(db, a, o);
    assert a in after.authorizations;
    forall x | x in after.operations && x.kind.Authorize?
      ensures exists b :: b in after.authorizations && OfHold(x, b)
    {
      if x != o {
        var b :| b in db.authorizations && OfHold(x, b);
        assert b in after.authorizations;
      }
    }
    forall c | c in after.captures ensures HoldIs(after, c.payment, Succeeded) {
      var b :| b in db.authorizations && b.payment == c.payment && b.status == Succeeded;
      assert b in after.authorizations;
    }
    forall r | r in after.refunds ensures CaptureIs(after, r.payment, Succeeded) {
      assert CaptureIs(db, r.payment, Succeeded);
    }
  }

  lemma NewHoldStep(db: Tables, a: Authorization, o: Operation)
    requires Sound(db) && OfHold(o, a) && a.status == Processing
    requires Uncaptured(db, a.payment) && forall b :: b in db.authorizations ==> b.payment != a.payment
    ensures Sound(WithNewHold(db, a, o))
  {
    hide Derived;
    var after := WithNewHold(db, a, o);
    assert a in after.authorizations;
    NewHoldOrder(db, a, o);
    DerivedByHold(after, a);
    DerivedAlone(db, a.payment);
    hide InOrder, HoldsBound;
    forall p | p in after.payments ensures StatusHolds(after, p) {
      assert StatusHolds(db, p);
      if p.id != a.payment {
        assert SameFor(db, after, p.id);
        SameDerived(db, after, p.id);
      }
    }
  }

  lemma DerivedAlone(db: Tables, id: Id)
    requires Uncaptured(db, id) && forall b :: b in db.authorizations ==> b.payment != id
    ensures Derived(db, id) == Created
  {
  }

  /** An authorization that a commit added is its payment's first. */
  lemma HoldIsNew(db: Tables, after: Tables, a: Authorization)
    requires InOrder(db) && Unique(db.authorizations, AuthorizationKey)
    requires Valid(after) && after.authorizations == db.authorizations + [a]
    ensures forall b :: b in db.authorizations ==> b.payment != a.payment
    ensures Uncaptured(db, a.payment)
  {
    OneHoldOf(after, a.payment);
    InsertUnique(db.authorizations, AuthorizationKey, a);
    hide Valid;
    assert a in after.authorizations;
    forall b | b in db.authorizations ensures b.payment != a.payment {
      assert b in after.authorizations && AuthorizationKey(b) != AuthorizationKey(a);
    }
  }

  lemma ExpiryStep(db: Tables, after: Tables, p: Payment)
    requires Sound(db) && Unique(db.payments, PaymentKey) && p in db.payments && p.status == Authorised
    requires Uncaptured(db, p.id)
    requires after == db.(payments := Changed(db.payments, PaymentKey, Update(p.(status := Expired))))
    ensures Sound(after)
  {
    UpdateMembers(db.payments, PaymentKey, p.(status := Expired));
    hide Derived, Changed;
    forall c | c in after.captures ensures HoldIs(after, c.payment, Succeeded) {
      assert HoldIs(db, c.payment, Succeeded);
    }
    forall r | r in after.refunds ensures CaptureIs(after, r.payment, Succeeded) {
      assert CaptureIs(db, r.payment, Succeeded);
    }
    assert StatusHolds(db, p);
    forall q | q in after.payments ensures StatusHolds(after, q) {
      assert SameFor(db, after, q.id);
      SameDerived(db, after, q.id);
    }
  }

  // --- every command ---------------------------------------------------------------------------

  lemma {:induction false} LedgerOnly(db: Tables, ss: Transaction)
    requires forall s :: s in ss ==> LeavesPayments(s) && !s.OnCaptures? && !s.OnRefunds?
    ensures RestAfter(db, ss) == RestOf(db)
    ensures var e := After(db, ss);
            e.operations == db.operations && e.captures == db.captures && e.refunds == db.refunds
  {
    if ss != [] {
      assert ss[|ss| - 1] in ss;
      LedgerOnly(db, ss[..|ss| - 1]);
    }
  }

  lemma PaymentAdded(db: Tables, p: Payment)
    requires Valid(db) && Sound(db) && p.status == Created && Commits(db, [OnPayments(Insert(p))])
    ensures Sound(Committed(db, [OnPayments(Insert(p))]))
  {
    var tx := [OnPayments(Insert(p))];
    var after := Committed(db, tx);
    CommittedValid(db, tx);
    CommittedEffects(db, tx);
    CommittedRest(db, tx);
    assert tx == [] + tx;
    AfterSnoc(db, [], tx[0]);
    RestSnoc(db, [], tx[0]);
    OperationParts(db);
    OperationParts(after);
    hide Valid, Commits, Committed, Sound;
    InsertUnique(db.payments, PaymentKey, p);
    assert forall q :: q in db.payments ==> PaymentKey(q) == q.id;
    NewPaymentStep(db, p);
    NothingDecided(db.(payments := db.payments + [p]), after);
  }

  lemma HoldAdded(db: Tables, a: Authorization)
    requires Valid(db) && Sound(db) && a.status == Processing && Commits(db, HoldTransaction(a))
    ensures Sound(Committed(db, HoldTransaction(a)))
  {
    var tx := HoldTransaction(a);
    var after := Committed(db, tx);
    CommittedValid(db, tx);
    CommittedEffects(db, tx);
    CommittedRest(db, tx);
    hide Valid, Commits, Committed;
    assert tx == ([] + [tx[0]]) + [tx[1]];
    AfterSnoc(db, [], tx[0]);
    AfterSnoc(db, [] + [tx[0]], tx[1]);
    RestSnoc(db, [], tx[0]);
    RestSnoc(db, [] + [tx[0]], tx[1]);
    OperationParts(db);
    HoldIsNew(db, after, a);
    var o := Operation(a.operation, a.org, a.env, a.payment, Authorize, a.id, a.status);
    NewHoldStep(db, a, o);
    NothingDecided(WithNewHold(db, a, o), after);
  }

  lemma PaymentExpired(db: Tables, p: Payment)
    requires Valid(db) && Sound(db) && p in db.payments && p.status == Authorised && Uncaptured(db, p.id)
    requires Commits(db, [OnPayments(Update(p.(status := Expired)))])
    ensures Sound(Committed(db, [OnPayments(Update(p.(status := Expired)))]))
  {
    var tx := [OnPayments(Update(p.(status := Expired)))];
    var after := Committed(db, tx);
    CommittedEffects(db, tx);
    CommittedRest(db, tx);
    hide Valid, Commits, Committed, Sound, Changed;
    assert tx == [] + tx;
    AfterSnoc(db, [], tx[0]);
    RestSnoc(db, [], tx[0]);
    OperationParts(db);
    var expired := db.(payments := Changed(db.payments, PaymentKey, Update(p.(status := Expired))));
    ExpiryStep(db, expired, p);
    NothingDecided(expired, after);
  }

  lemma OtherStep(db: Tables, cmd: Command)
    requires Valid(db) && Sound(db) && cmd.Other? && Known(db, cmd)
    requires Plan(db, cmd).Some? && Commits(db, cmd.statements)
    ensures Sound(Committed(db, cmd.statements))
  {
    hide Valid, Sound, Commits, Committed;
    if forall s :: s in cmd.statements ==> LeavesPayments(s) {
      CommittedEffects(db, cmd.statements);
      CommittedRest(db, cmd.statements);
      LedgerOnly(db, cmd.statements);
      NothingDecided(db, Committed(db, cmd.statements));
    } else if p :| cmd.statements == [OnPayments(Insert(p))] && p.status == Created {
      PaymentAdded(db, p);
    } else if a :| cmd.statements == HoldTransaction(a) && a.status == Processing {
      HoldAdded(db, a);
    } else {
      var p :| && p in db.payments && p.status == Authorised && HoldIs(db, p.id, Succeeded) && Uncaptured(db, p.id)
               && cmd.statements == [OnPayments(Update(p.(status := Expired)))];
      PaymentExpired(db, p);
    }
  }

  lemma StartStep(db: Tables, cmd: Command)
    requires Valid(db) && OperationKeysHold(db) && Sound(db) && (cmd.InitiateCapture? || cmd.InitiateRefund?)
    requires Plan(db, cmd).Some? && Commits(db, Plan(db, cmd).value)
    ensures Sound(Committed(db, Plan(db, cmd).value))
  {
    hide Valid, OperationKeysHold, Sound, Commits, Committed, Plan;
    if cmd.InitiateCapture? {
      CapturePlannedExactly(db, cmd);
      CaptureStartsExactly(db, cmd);
      var a :| a in db.authorizations && a.org == cmd.org && a.env == cmd.env && a.payment == cmd.payment
               && Plan(db, cmd).value
                  == CaptureTransaction(CaptureRow(cmd.capture, cmd.org, cmd.env, cmd.payment, a.id, cmd.operation,
                                                   cmd.amount, Processing, None));
      var c := CaptureRow(cmd.capture, cmd.org, cmd.env, cmd.payment, a.id, cmd.operation, cmd.amount, Processing,
                          None);
      CaptureCommitsWhen(db, c);
      OnePayment(db, cmd.payment);
      NewCaptureStep(db, c, CaptureOperation(c));
    } else {
      RefundPlannedExactly(db, cmd);
      var c :| c in db.captures && c.org == cmd.org && c.env == cmd.env && c.payment == cmd.payment
               && c.status == Succeeded
               && Plan(db, cmd).value
                  == RefundTransaction(RefundRow(cmd.refund, cmd.org, cmd.env, cmd.payment, c.id, cmd.operation,
                                                 cmd.amount, Processing, None));
      var r := RefundRow(cmd.refund, cmd.org, cmd.env, cmd.payment, c.id, cmd.operation, cmd.amount, Processing, None);
      RefundCommitsWhen(db, r);
      assert CaptureIs(db, r.payment, Succeeded);
      NewRefundStep(db, r, OperationOf(r));
    }
  }

  lemma MoveOnStep(db: Tables, cmd: Command, o: Operation)
    requires Valid(db) && Inv(db) && Sound(db) && MovesOn(db, cmd, o)
    ensures Sound(Committed(db, Plan(db, cmd).value))
  {
    OperationParts(db);
    hide Valid, Commits, Committed, Plan, MovesOn;
    assert o in db.operations by { assert MovesOn(db, cmd, o); }
    if o.kind.Authorize? {
      var a :| a in db.authorizations && OfHold(o, a);
      HoldStep(db, cmd, o, a);
    } else if o.kind.Capture? {
      var c :| c in db.captures && OfCapture(o, c);
      CaptureStep(db, cmd, o, c);
    } else {
      var r :| r in db.refunds && OfRefund(o, r);
      RefundStep(db, cmd, o, r);
    }
  }

  lemma CommandKeepsSound(db: Tables, cmd: Command)
    requires Valid(db) && OperationKeysHold(db) && Inv(db) && Sound(db) && Known(db, cmd)
    requires Plan(db, cmd).Some? && Commits(db, Plan(db, cmd).value)
    ensures Sound(Committed(db, Plan(db, cmd).value))
  {
    hide Valid, OperationKeysHold, Inv, Sound, Known, Commits, Committed;
    if cmd.Other? {
      OtherStep(db, cmd);
    } else if cmd.Finalize? || cmd.Review? {
      MoveOnStep(db, cmd, Lookup(db.operations, OperationKey, cmd.operation).value);
    } else {
      StartStep(db, cmd);
    }
  }

  // --- over every run --------------------------------------------------------------------------

  lemma KnownSoFar(cmds: seq<Command>, n: nat)
    requires KnownRun(cmds) && n < |cmds|
    ensures KnownRun(cmds[..n]) && Known(Run(EMPTY, Sent(cmds[..n])), cmds[n])
  {
    hide Known, Run;
    forall k | 0 <= k < n ensures Known(Run(EMPTY, Sent(cmds[..n][..k])), cmds[..n][k]) {
      assert cmds[..n][..k] == cmds[..k] && cmds[..n][k] == cmds[k];
    }
  }

  lemma SendKeepsSound(db: Tables, cmd: Command)
    requires Valid(db) && OperationKeysHold(db) && Inv(db) && Sound(db) && Known(db, cmd) && Plan(db, cmd).Some?
    ensures Sound(Committed(db, Plan(db, cmd).value))
  {
    hide Valid, OperationKeysHold, Inv, Sound, Known, Commits, Plan;
    if Commits(db, Plan(db, cmd).value) {
      CommandKeepsSound(db, cmd);
    }
  }

  lemma {:induction false} RunIsSound(cmds: seq<Command>)
    requires KnownRun(cmds)
    ensures Sound(Run(EMPTY, Sent(cmds)))
  {
    if cmds == [] {
      EmptyIsSound();
    } else {
      hide Valid, OperationKeysHold, Inv, Sound, Known, KnownRun, Committed, Plan, FinalizerRun;
      var n := |cmds| - 1;
      var txs := Sent(cmds[..n]);
      var db := Run(EMPTY, txs);
      KnownSoFar(cmds, n);
      RunIsSound(cmds[..n]);
      RunValid(txs);
      ServicesAreDisciplined(cmds[..n]);
      if Plan(db, cmds[n]).Some? {
        SendKeepsSound(db, cmds[n]);
        var tx := Plan(db, cmds[n]).value;
        assert (txs + [tx])[..|txs|] == txs;
      }
    }
  }

  lemma EmptyIsSound()
    ensures Sound(EMPTY)
  {
  }

  /**
   After every run of the services, the stored status of every payment is the one that the backfill of
   migration 0019 derives from its rows, unless it has expired: then the backfill says authorised, and the
   payment was never captured.
   */
  lemma StatusIsDerived(cmds: seq<Command>, p: Payment)
    requires KnownRun(cmds) && p in Run(EMPTY, Sent(cmds)).payments
    ensures var db := Run(EMPTY, Sent(cmds));
            || p.status == Derived(db, p.id)
            || (&& p.status == Expired && Derived(db, p.id) == Authorised
                && forall c :: c in db.captures ==> c.payment != p.id)
  {
    RunIsSound(cmds);
    assert StatusHolds(Run(EMPTY, Sent(cmds)), p);
  }

  /** What is refunded and what this refund still holds are both within the payment's live refunds. */
  lemma RefundedAndHeld(db: Tables, r: RefundRow)
    requires Valid(db) && r in db.refunds && (r.status == Processing || r.status == RequiresReview)
    ensures Sum(db.refunds, RefundedOf(r.payment)) + r.amount <= LiveRefunds(db, r.org, r.payment)
  {
    hide Valid;
    PositiveRefunds(db);
    forall x | x in db.refunds && x.payment == r.payment ensures x.org == r.org {
      RefundInScope(db, x, r);
    }
    var held := (x: RefundRow) => LiveRefundOf(r.org, r.payment)(x) - RefundedOf(r.payment)(x);
    SumPlus(db.refunds, RefundedOf(r.payment), held, LiveRefundOf(r.org, r.payment));
    var i :| 0 <= i < |db.refunds| && db.refunds[i] == r;
    SumAt(db.refunds, i, held);
    SumNonNegative(db.refunds[..i], held);
    SumNonNegative(db.refunds[i + 1..], held);
  }

  lemma PositiveRefunds(db: Tables)
    requires Valid(db)
    ensures forall r :: r in db.refunds ==> r.amount > 0
  {
  }

  lemma RefundInScope(db: Tables, x: RefundRow, r: RefundRow)
    requires Valid(db) && x in db.refunds && r in db.refunds && x.payment == r.payment
    ensures x.org == r.org
  {
    assert RefundLinked(db, x) && RefundLinked(db, r);
    var p :| p in db.payments && p.id == x.payment && p.org == x.org && p.env == x.env;
    var q :| q in db.payments && q.id == r.payment && q.org == r.org && q.env == r.env;
    SameRow(db.payments, PaymentKey, p, q);
  }

  /** So while a refund is open, its payment is not fully refunded. */
  lemma OpenRefundLeavesRoom(db: Tables, r: RefundRow)
    requires Valid(db) && Covered(db) && r in db.refunds && (r.status == Processing || r.status == RequiresReview)
    ensures Derived(db, r.payment) != Refunded
  {
    RefundedAndHeld(db, r);
    OneSettledCapture(db, r.payment);
    assert r.amount > 0;
    hide Valid;
    if c :| c in db.captures && c.payment == r.payment && c.status == Succeeded
            && Sum(db.refunds, RefundedOf(r.payment)) == c.amount
    {
      CapturedAtMost(db, r.org, c);
    }
  }

  lemma CapturedAtMost(db: Tables, org: Id, c: CaptureRow)
    requires c in db.captures && c.amount >= 0 && Unique(db.captures, CaptureKey)
    requires forall d :: d in db.captures && d.payment == c.payment ==> d == c
    ensures CapturedAmount(db, org, c.payment) <= c.amount
  {
    var i :| 0 <= i < |db.captures| && db.captures[i] == c;
    var f := CapturedOf(org, c.payment);
    SumAt(db.captures, i, f);
    forall k | 0 <= k < |db.captures| && k != i ensures f(db.captures[k]) == 0 {
      assert db.captures[k] in db.captures && CaptureKey(db.captures[k]) != CaptureKey(db.captures[i]);
    }
    SumZero(db.captures[..i], f);
    SumZero(db.captures[i + 1..], f);
  }

  lemma PaymentMayMove(db: Tables, o: Operation, p: Payment)
    requires Valid(db) && Inv(db) && Sound(db) && Covered(db)
    requires o in db.operations && p in db.payments && p.id == o.payment
    requires o.status == Processing || o.status == RequiresReview
    ensures o.kind == Authorize ==> p.status == Created
    ensures o.kind == Kind.Capture ==> p.status == Authorised
    ensures o.kind == Kind.Refund ==> p.status == Captured || p.status == PartiallyRefunded
  {
    hide Valid;
    assert StatusHolds(db, p);
    if o.kind.Authorize? {
      var a :| a in db.authorizations && OfHold(o, a);
      NothingBeforeHold(db, a);
      OneHoldOf(db, a.payment);
      DerivedByHold(db, a);
    } else if o.kind.Capture? {
      var c :| c in db.captures && OfCapture(o, c);
      UnrefundedBefore(db, c);
      CaptureDecides(db, c);
    } else if o.kind.Refund? {
      var r :| r in db.refunds && OfRefund(o, r);
      assert CaptureIs(db, r.payment, Succeeded);
      OpenRefundLeavesRoom(db, r);
    }
  }

  /**
   Over every run the finalizer finds the payment where it can make its move: for an operation that has not
   finished, no verdict of the provider is ever refused as an illegal transition.
   */
  lemma VerdictAlwaysApplies(cmds: seq<Command>, cmd: Command, o: Operation)
    requires KnownRun(cmds) && cmd.Finalize? && o in Run(EMPTY, Sent(cmds)).operations && o.id == cmd.operation
    requires o.status == Processing || o.status == RequiresReview
    ensures Plan(Run(EMPTY, Sent(cmds)), cmd).Some?
  {
    hide Valid, OperationKeysHold, Sound, Plan, FinalizerRun, Covered;
    var db := Run(EMPTY, Sent(cmds));
    RunIsSound(cmds);
    RunValid(Sent(cmds));
    ServicesAreDisciplined(cmds);
    ServicesKeepCover(cmds);
    OperationParts(db);
    var p :| p in db.payments && p.id == o.payment;
    PaymentMayMove(db, o, p);
    WritesExactly(db, cmd, o, p);
    ResourceIsThere(db, o);
  }

  lemma ResourceIsThere(db: Tables, o: Operation)
    requires Inv(db) && Sound(db) && o in db.operations
    ensures o.kind == Authorize ==> exists a :: a in db.authorizations && a.id == o.resource && a.org == o.org
    ensures o.kind == Kind.Capture ==> exists c :: c in db.captures && c.id == o.resource && c.org == o.org
    ensures o.kind == Kind.Refund ==> exists r :: r in db.refunds && r.id == o.resource && r.org == o.org
  {
    if o.kind.Authorize? {
      var a :| a in db.authorizations && OfHold(o, a);
    } else if o.kind.Capture? {
      var c :| c in db.captures && OfCapture(o, c);
    } else if o.kind.Refund? {
      var r :| r in db.refunds && OfRefund(o, r);
    }
  }
}
