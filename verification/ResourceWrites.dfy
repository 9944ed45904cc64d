/**
 The remaining writes to captures and refunds: a refund that is rewritten or deleted, and a capture that
 is inserted or deleted. As in `RefundExactness`, each has its exact condition for committing and, where
 it can break it, its exact condition for keeping every payment's live refunds within its capture.
 */
module ResourceWrites {
  import opened Basics
  import opened Rows
  import opened Sums
  import opened Database
  import opened RefundReservations
  import opened Acceptance
  import opened RefundExactness

  // --- rewriting a refund ----------------------------------------------------------------------

  /** What the constraints ask of a refund row that takes the place of the one with its id. */
  predicate RefundReplaces(db: Tables, r: RefundRow) {
    && RefundChecked(r)
    && RefundLinked(db, r)
    && forall q :: q in db.refunds && q.id != r.id ==> !RefundsClash(r, q)
  }

  function Repaid(db: Tables, r: RefundRow): Tables {
    db.(refunds := Changed(db.refunds, RefundKey, Update(r)))
  }

  lemma RefundsReplaced(db: Tables, r: RefundRow)
    requires RefundsValid(db) && Position(db.refunds, RefundKey, r.id).Some?
    ensures RefundsValid(Repaid(db, r)) <==> RefundReplaces(db, r)
  {
    var after := Repaid(db, r);
    UpdateMembers(db.refunds, RefundKey, r);
    forall q ensures RefundLinked(after, q) == RefundLinked(db, q) {}
    hide RefundLinked, RefundChecked, Changed;
    if RefundReplaces(db, r) {
      forall x, y | x in after.refunds && y in after.refunds && RefundsClash(x, y) ensures x == y {
        assert RefundsClash(y, x);
      }
    }
    if RefundsValid(after) {
      forall q | q in db.refunds && q.id != r.id ensures !RefundsClash(r, q) {
        assert q in after.refunds;
      }
    }
  }

  lemma RefundUpdateExec(db: Tables, r: RefundRow)
    requires Valid(db) && Position(db.refunds, RefundKey, r.id).Some?
    ensures Exec(Work(db, []), OnRefunds(Update(r)))
         == if RefundReplaces(db, r) then Some(Work(Repaid(db, r), [] + [RefundWritten(r)])) else None
  {
    hide AccountsValid, OperationsValid, AuthorizationsValid, JournalsValid, PostingsValid, CapturesValid,
         RefundsValid, ReservationsValid, RefundReplaces, Changed;
    OnlyRefunds(db, Repaid(db, r));
    RefundsReplaced(db, r);
  }

  /** What the payment has in live refunds once this row stands in for the one with its id. */
  function LiveWithout(db: Tables, r: RefundRow): int
    requires Position(db.refunds, RefundKey, r.id).Some?
  {
    var before := Lookup(db.refunds, RefundKey, r.id).value;
    LiveRefunds(db, r.org, r.payment) - LiveRefundOf(r.org, r.payment)(before) + LiveRefundOf(r.org, r.payment)(r)
  }

  lemma RepaidLive(db: Tables, r: RefundRow, org: Id, payment: Id)
    requires Position(db.refunds, RefundKey, r.id).Some?
    ensures var before := Lookup(db.refunds, RefundKey, r.id).value;
            LiveRefunds(Repaid(db, r), org, payment)
            == LiveRefunds(db, org, payment) - LiveRefundOf(org, payment)(before) + LiveRefundOf(org, payment)(r)
  {
    SumUpdate(db.refunds, Position(db.refunds, RefundKey, r.id).value, r, LiveRefundOf(org, payment));
  }

  /** The capture the new row names has succeeded and is worth the payment's live refunds. */
  predicate StillBears(db: Tables, r: RefundRow)
    requires Position(db.refunds, RefundKey, r.id).Some?
  {
    exists c :: c in db.captures && c.id == r.capture && c.org == r.org && c.status.Succeeded?
                && LiveWithout(db, r) <= c.amount
  }

  lemma RepaidRejectsExactly(db: Tables, r: RefundRow)
    requires CapturesValid(db) && HasCapture(db.captures, r.capture, r.org, r.env)
    requires Position(db.refunds, RefundKey, r.id).Some?
    ensures RefundRejects(Repaid(db, r), r) <==> !StillBears(db, r)
  {
    var c :| c in db.captures && c.id == r.capture && c.org == r.org;
    FindsRow(db.captures, CaptureKey, c);
    RepaidLive(db, r, r.org, r.payment);
    forall d | d in db.captures && d.id == r.capture ensures d == c {
      SameRow(db.captures, CaptureKey, c, d);
    }
  }

  lemma RepaidKeys(db: Tables, r: RefundRow)
    requires RefundsValid(db) && OperationKeysHold(db) && Position(db.refunds, RefundKey, r.id).Some?
    ensures OperationKeysHold(Repaid(db, r)) <==> HasOperation(db.operations, r.operation, r.org, r.env)
  {
    UpdateMembers(db.refunds, RefundKey, r);
  }

  /** A rewrite of a refund commits when the constraints, the deferred key and the capture it names say so. */
  lemma RefundRewriteCommitsWhen(db: Tables, r: RefundRow)
    requires Valid(db) && OperationKeysHold(db) && Position(db.refunds, RefundKey, r.id).Some?
    ensures Commits(db, [OnRefunds(Update(r))]) <==>
              && RefundReplaces(db, r)
              && HasOperation(db.operations, r.operation, r.org, r.env)
              && StillBears(db, r)
    ensures Commits(db, [OnRefunds(Update(r))]) ==> Committed(db, [OnRefunds(Update(r))]) == Repaid(db, r)
  {
    hide Valid, CapturesValid, RefundsValid, StillBears, Exec, Commits, Committed, OperationKeysHold, HasOperation,
         HasCapture, Changed, RefundRejects;
    ResourceParts(db);
    RepaidKeys(db, r);
    if RefundReplaces(db, r) {
      RepaidRejectsExactly(db, r);
    }
    CommitsOne(db, OnRefunds(Update(r)));
    RefundUpdateExec(db, r);
    var events := [] + [RefundWritten(r)];
    assert events[0] in events;
  }

  /** The other refunds, with the new row in the place of the one that has its id. */
  lemma RepaidTotal(db: Tables, r: RefundRow)
    requires Position(db.refunds, RefundKey, r.id).Some?
    ensures LiveWithout(db, r) == Sum(Repaid(db, r).refunds, Outstanding(r.org, r.payment))
  {
    RepaidLive(db, r, r.org, r.payment);
    LiveIsOutstanding(Repaid(db, r), r.org, r.payment);
  }

  /**
   Which rewrites of a refund commit, column by column: the new row meets the CHECKs, names a payment, an
   operation and a journal of its scope, collides with no other refund, and names a SUCCEEDED capture that
   covers all refunds of its payment that have not failed.
   */
  lemma RefundRewriteCommitsExactly(db: Tables, r: RefundRow)
    requires Valid(db) && OperationKeysHold(db) && Position(db.refunds, RefundKey, r.id).Some?
    ensures Commits(db, [OnRefunds(Update(r))]) <==>
              && r.amount > 0 && (r.status == Succeeded <==> r.journal.Some?)
              && (exists p :: p in db.payments && p.id == r.payment && p.org == r.org && p.env == r.env)
              && (exists o :: o in db.operations && o.id == r.operation && o.org == r.org && o.env == r.env)
              && (exists c :: c in db.captures && c.id == r.capture && c.org == r.org && c.env == r.env
                              && c.status == Succeeded
                              && Sum(Changed(db.refunds, RefundKey, Update(r)), Outstanding(r.org, r.payment))
                                 <= c.amount)
              && (r.journal.Some? ==>
                    exists j :: j in db.journals && j.id == r.journal.value && j.org == r.org && j.env == r.env)
              && (forall q :: q in db.refunds && q.id != r.id ==>
                    q.operation != r.operation && (r.journal.None? || q.journal != r.journal))
  {
    hide Valid, Commits, Committed, OperationKeysHold, Changed, LiveWithout;
    RefundRewriteCommitsWhen(db, r);
    RepaidTotal(db, r);
    OneCapture(db, r.capture);
  }

  lemma PositiveAmount(db: Tables, r: RefundRow)
    requires Valid(db) && r in db.refunds
    ensures r.amount > 0
  {
  }

  /** A rewritten refund that commits keeps every payment covered exactly when its own payment captured enough. */
  lemma RefundRewriteKeepsCoverExactly(db: Tables, r: RefundRow)
    requires Valid(db) && OperationKeysHold(db) && Covered(db)
    requires Position(db.refunds, RefundKey, r.id).Some? && Commits(db, [OnRefunds(Update(r))])
    ensures Covered(Committed(db, [OnRefunds(Update(r))])) <==>
            LiveWithout(db, r) <= CapturedAmount(db, r.org, r.payment)
  {
    hide Valid, Commits, Committed, RefundReplaces, StillBears, HasOperation, OperationKeysHold, Changed;
    RefundRewriteCommitsWhen(db, r);
    var before, after := Lookup(db.refunds, RefundKey, r.id).value, Repaid(db, r);
    PositiveAmount(db, before);
    RepaidLive(db, r, r.org, r.payment);
    if Covered(after) {
      assert LiveRefunds(after, r.org, r.payment) <= CapturedAmount(after, r.org, r.payment);
    }
    if LiveWithout(db, r) <= CapturedAmount(db, r.org, r.payment) {
      forall org: Id, payment: Id ensures LiveRefunds(after, org, payment) <= CapturedAmount(after, org, payment) {
        RepaidLive(db, r, org, payment);
        assert LiveRefunds(db, org, payment) <= CapturedAmount(db, org, payment);
      }
    }
  }

  // --- deleting a refund -----------------------------------------------------------------------

  function Forgotten(db: Tables, r: RefundRow): Tables {
    db.(refunds := Changed(db.refunds, RefundKey, Delete(r)))
  }

  lemma ForgottenValid(db: Tables, r: RefundRow)
    requires Valid(db) && Position(db.refunds, RefundKey, r.id).Some?
    ensures Valid(Forgotten(db, r))
  {
    var after := Forgotten(db, r);
    ResourceParts(db);
    DeleteMembers(db.refunds, RefundKey, r);
    forall q ensures RefundLinked(after, q) == RefundLinked(db, q) {}
    assert RefundsValid(after);
    hide AccountsValid, OperationsValid, AuthorizationsValid, JournalsValid, PostingsValid, CapturesValid,
         RefundsValid, ReservationsValid, Changed;
    OnlyRefunds(db, after);
  }

  lemma RefundDeleteExec(db: Tables, r: RefundRow)
    requires Valid(db) && Position(db.refunds, RefundKey, r.id).Some?
    ensures Exec(Work(db, []), OnRefunds(Delete(r))) == Some(Work(Forgotten(db, r), []))
  {
    hide Valid, Changed;
    ForgottenValid(db, r);
    var none: seq<Event> := [];
    assert none + none == none;
  }

  lemma ForgottenKeys(db: Tables, r: RefundRow)
    requires RefundsValid(db) && OperationKeysHold(db) && Position(db.refunds, RefundKey, r.id).Some?
    ensures OperationKeysHold(Forgotten(db, r))
  {
    DeleteMembers(db.refunds, RefundKey, r);
  }

  /** Nothing stops the deletion of a refund, and it only takes away from what must be covered. */
  lemma RefundDeleteKeepsCover(db: Tables, r: RefundRow)
    requires Valid(db) && OperationKeysHold(db) && Covered(db) && Position(db.refunds, RefundKey, r.id).Some?
    ensures Commits(db, [OnRefunds(Delete(r))]) && Committed(db, [OnRefunds(Delete(r))]) == Forgotten(db, r)
    ensures Covered(Forgotten(db, r))
  {
    hide Valid, CapturesValid, RefundsValid, Exec, Commits, Committed, OperationKeysHold;
    ResourceParts(db);
    RefundDeleteExec(db, r);
    ForgottenKeys(db, r);
    CommitsOne(db, OnRefunds(Delete(r)));
    var i := Position(db.refunds, RefundKey, r.id).value;
    PositiveAmount(db, db.refunds[i]);
    forall org: Id, payment: Id
      ensures LiveRefunds(Forgotten(db, r), org, payment) <= CapturedAmount(Forgotten(db, r), org, payment)
    {
      SumRemove(db.refunds, i, LiveRefundOf(org, payment));
      assert LiveRefunds(db, org, payment) <= CapturedAmount(db, org, payment);
    }
  }

  // --- a new capture ---------------------------------------------------------------------------

  /** The provider operation that goes with a capture. */
  function CaptureOperation(c: CaptureRow): Operation {
    Operation(c.operation, c.org, c.env, c.payment, Capture, c.id, c.status)
  }

  function CaptureTransaction(c: CaptureRow): Transaction {
    [OnOperations(Insert(CaptureOperation(c))), OnCaptures(Insert(c))]
  }

  function WithCapture(db: Tables, c: CaptureRow): Tables {
    db.(operations := db.operations + [CaptureOperation(c)], captures := db.captures + [c])
  }

  predicate CaptureIsNew(db: Tables, c: CaptureRow) {
    && CaptureChecked(c)
    && CaptureLinked(db, c)
    && forall d :: d in db.captures ==> d.id != c.id && !CapturesClash(c, d)
  }

  lemma CaptureInsertValid(db: Tables, c: CaptureRow)
    requires Valid(db)
    ensures Valid(db.(captures := db.captures + [c])) <==> CaptureIsNew(db, c)
  {
    var after := db.(captures := db.captures + [c]);
    if CaptureIsNew(db, c) {
      hide Valid;
      CaptureAdded(db, c);
    }
    if Valid(after) {
      ResourceParts(db);
      ResourceParts(after);
      hide Valid;
      assert c in after.captures;
      InsertUnique(db.captures, CaptureKey, c);
      forall d | d in db.captures ensures d.id != c.id && !CapturesClash(c, d) {
        assert CaptureKey(d) != CaptureKey(c);
        assert d in after.captures;
      }
    }
  }

  lemma CaptureInsertExec(w: Work, c: CaptureRow)
    requires Valid(w.db)
    ensures Exec(w, OnCaptures(Insert(c)))
         == if CaptureIsNew(w.db, c)
            then Some(Work(w.db.(captures := w.db.captures + [c]), w.events + [CaptureWritten(c, true)]))
            else None
  {
    hide Valid, CaptureIsNew;
    CaptureInsertValid(w.db, c);
  }

  lemma NewAsBefore(db: Tables, after: Tables, c: CaptureRow)
    requires after == db.(operations := after.operations)
    ensures CaptureIsNew(after, c) == CaptureIsNew(db, c)
  {
  }

  lemma CaptureExecutes(db: Tables, c: CaptureRow)
    requires Valid(db)
    ensures ExecAll(Work(db, []), CaptureTransaction(c))
         == if OperationFits(db, CaptureOperation(c)) && CaptureIsNew(db, c)
            then Some(Work(WithCapture(db, c), [OperationWritten(CaptureOperation(c)), CaptureWritten(c, true)]))
            else None
  {
    hide Valid, OperationFits, CaptureIsNew, Exec, ExecAll;
    var o := CaptureOperation(c);
    var half := Work(db.(operations := db.operations + [o]), [] + [OperationWritten(o)]);
    NewAsBefore(db, half.db, c);
    ExecTwo(Work(db, []), OnOperations(Insert(o)), OnCaptures(Insert(c)));
    OperationInsertExec(Work(db, []), o);
    if OperationFits(db, o) {
      CaptureInsertExec(half, c);
      assert half.events + [CaptureWritten(c, true)] == [OperationWritten(o), CaptureWritten(c, true)];
    }
  }

  lemma KeysWithCapture(db: Tables, c: CaptureRow)
    requires OperationKeysHold(db)
    ensures OperationKeysHold(WithCapture(db, c)) && !BindingRejects(WithCapture(db, c), CaptureOperation(c))
    ensures CaptureRejects(WithCapture(db, c), c, true) == CaptureRejects(db, c, true)
  {
    var after := WithCapture(db, c);
    assert CaptureOperation(c) in after.operations && c in after.captures;
    assert forall id, org, env ::
             HasOperation(db.operations, id, org, env) ==> HasOperation(after.operations, id, org, env);
  }

  /** A new capture commits when the constraints on both rows and the guard say so. */
  lemma CaptureCommitsWhen(db: Tables, c: CaptureRow)
    requires Valid(db) && OperationKeysHold(db)
    ensures Commits(db, CaptureTransaction(c)) <==>
            OperationFits(db, CaptureOperation(c)) && CaptureIsNew(db, c) && !CaptureRejects(db, c, true)
    ensures Commits(db, CaptureTransaction(c)) ==> Committed(db, CaptureTransaction(c)) == WithCapture(db, c)
  {
    hide Valid, OperationFits, CaptureIsNew, OperationKeysHold, BindingRejects, CaptureRejects, ExecAll;
    CaptureExecutes(db, c);
    KeysWithCapture(db, c);
    var events := [OperationWritten(CaptureOperation(c)), CaptureWritten(c, true)];
    assert events[1] in events;
  }

  /**
   Which new captures commit with their operation, column by column: both rows are new, the capture meets
   the CHECKs and names a journal of its scope if it has one, its payment is not dead, and the
   authorization it names is SUCCEEDED and covers it.
   */
  lemma CaptureCommitsExactly(db: Tables, c: CaptureRow)
    requires Valid(db) && OperationKeysHold(db)
    ensures Commits(db, CaptureTransaction(c)) <==>
              && c.amount > 0 && (c.status == Succeeded <==> c.journal.Some?)
              && (exists p :: p in db.payments && p.id == c.payment && p.org == c.org && p.env == c.env)
              && (forall p :: p in db.payments && p.id == c.payment && p.org == c.org ==>
                    p.status != Cancelled && p.status != Expired && p.status != PaymentFailed)
              && (exists a :: a in db.authorizations && a.id == c.authorization && a.org == c.org && a.env == c.env
                              && a.status == Succeeded && c.amount <= a.amount)
              && (c.journal.Some? ==>
                    exists j :: j in db.journals && j.id == c.journal.value && j.org == c.org && j.env == c.env)
              && (forall o :: o in db.operations ==>
                    o.id != c.operation
                    && (o.org != c.org || o.env != c.env || o.kind != Kind.Capture || o.resource != c.id))
              && (forall d :: d in db.captures ==>
                    && d.id != c.id && (d.org != c.org || d.payment != c.payment) && d.operation != c.operation
                    && (c.journal.None? || d.journal != c.journal))
  {
    hide Valid, Commits, Committed, OperationKeysHold, CaptureRejects;
    CaptureCommitsWhen(db, c);
    if HasAuthorization(db.authorizations, c.authorization, c.org, c.env) {
      GuardAsks(db, c, true);
    }
  }

  /** A capture that commits is its payment's first, so it takes cover from no one. */
  lemma CaptureKeepsCover(db: Tables, c: CaptureRow)
    requires Valid(db) && OperationKeysHold(db) && Covered(db) && Commits(db, CaptureTransaction(c))
    ensures Covered(Committed(db, CaptureTransaction(c)))
    ensures CapturedAmount(Committed(db, CaptureTransaction(c)), c.org, c.payment) == CapturedOf(c.org, c.payment)(c)
  {
    CaptureCommitsWhen(db, c);
    hide Valid, Commits, Committed;
    var after := WithCapture(db, c);
    forall org: Id, payment: Id
      ensures CapturedAmount(after, org, payment) == CapturedAmount(db, org, payment) + CapturedOf(org, payment)(c)
    {
      SumAppend(db.captures, [c], CapturedOf(org, payment));
      SumOne(c, CapturedOf(org, payment));
    }
    forall d | d in db.captures ensures CapturedOf(c.org, c.payment)(d) == 0 {
      assert !CapturesClash(c, d);
    }
    SumZero(db.captures, CapturedOf(c.org, c.payment));
    forall org: Id, payment: Id ensures LiveRefunds(after, org, payment) <= CapturedAmount(after, org, payment) {
      assert LiveRefunds(db, org, payment) <= CapturedAmount(db, org, payment);
    }
  }

  // --- deleting a capture ----------------------------------------------------------------------

  function Removed(db: Tables, c: CaptureRow): Tables {
    db.(captures := Changed(db.captures, CaptureKey, Delete(c)))
  }

  /** No refund names the capture. */
  predicate Unnamed(db: Tables, c: CaptureRow) {
    forall r :: r in db.refunds ==> r.capture != c.id
  }

  lemma RefundsWithout(db: Tables, c: CaptureRow)
    requires CapturesValid(db) && RefundsValid(db) && Position(db.captures, CaptureKey, c.id).Some?
    ensures RefundsValid(Removed(db, c)) <==> Unnamed(db, c)
  {
    var after := Removed(db, c);
    DeleteMembers(db.captures, CaptureKey, c);
    hide Changed;
    if Unnamed(db, c) {
      forall r | r in after.refunds ensures RefundLinked(after, r) {
        assert RefundLinked(db, r);
        var d :| d in db.captures && d.id == r.capture && d.org == r.org && d.env == r.env;
        assert d in after.captures;
      }
    }
    if RefundsValid(after) {
      forall r | r in db.refunds ensures r.capture != c.id {
        assert RefundLinked(after, r);
        var d :| d in after.captures && d.id == r.capture;
      }
    }
  }

  lemma CapturesWithout(db: Tables, c: CaptureRow)
    requires CapturesValid(db) && Position(db.captures, CaptureKey, c.id).Some?
    ensures CapturesValid(Removed(db, c))
  {
    DeleteMembers(db.captures, CaptureKey, c);
    hide Changed;
    forall d | d in Removed(db, c).captures ensures CaptureLinked(Removed(db, c), d) {
      assert CaptureLinked(db, d);
    }
  }

  lemma RemovedValid(db: Tables, c: CaptureRow)
    requires Valid(db) && Position(db.captures, CaptureKey, c.id).Some?
    ensures Valid(Removed(db, c)) <==> Unnamed(db, c)
  {
    hide AccountsValid, OperationsValid, AuthorizationsValid, JournalsValid, PostingsValid, CapturesValid,
         RefundsValid, ReservationsValid, Changed, Unnamed;
    SameStand(db, Removed(db, c));
    UnderCapturesStand(db, Removed(db, c));
    CapturesWithout(db, c);
    RefundsWithout(db, c);
  }

  lemma RemovedKeys(db: Tables, c: CaptureRow)
    requires CapturesValid(db) && OperationKeysHold(db) && Position(db.captures, CaptureKey, c.id).Some?
    ensures OperationKeysHold(Removed(db, c))
  {
    DeleteMembers(db.captures, CaptureKey, c);
  }

  lemma CaptureDeleteExec(db: Tables, c: CaptureRow)
    requires Valid(db) && Position(db.captures, CaptureKey, c.id).Some?
    ensures Exec(Work(db, []), OnCaptures(Delete(c))) == if Unnamed(db, c) then Some(Work(Removed(db, c), [])) else None
  {
    hide Valid, Changed, Unnamed;
    RemovedValid(db, c);
    var none: seq<Event> := [];
    assert none + none == none;
  }

  /** A capture can be deleted exactly while no refund names it. */
  lemma CaptureDeleteCommitsExactly(db: Tables, c: CaptureRow)
    requires Valid(db) && OperationKeysHold(db) && Position(db.captures, CaptureKey, c.id).Some?
    ensures Commits(db, [OnCaptures(Delete(c))]) <==> Unnamed(db, c)
    ensures Commits(db, [OnCaptures(Delete(c))]) ==> Committed(db, [OnCaptures(Delete(c))]) == Removed(db, c)
  {
    hide Valid, CapturesValid, RefundsValid, OperationKeysHold, Unnamed, Changed, Exec, Commits, Committed;
    ResourceParts(db);
    RemovedKeys(db, c);
    CaptureDeleteExec(db, c);
    CommitsOne(db, OnCaptures(Delete(c)));
  }

  lemma RemovedAmount(db: Tables, c: CaptureRow, org: Id, payment: Id)
    requires Position(db.captures, CaptureKey, c.id).Some?
    ensures CapturedAmount(Removed(db, c), org, payment)
         == CapturedAmount(db, org, payment) - CapturedOf(org, payment)(Lookup(db.captures, CaptureKey, c.id).value)
  {
    SumRemove(db.captures, Position(db.captures, CaptureKey, c.id).value, CapturedOf(org, payment));
  }

  /** ... and that keeps every payment covered exactly when its payment has no live refunds, on any capture. */
  lemma CaptureDeleteKeepsCoverExactly(db: Tables, c: CaptureRow)
    requires Valid(db) && OperationKeysHold(db) && Covered(db)
    requires Position(db.captures, CaptureKey, c.id).Some? && Commits(db, [OnCaptures(Delete(c))])
    ensures var before := Lookup(db.captures, CaptureKey, c.id).value;
            Covered(Committed(db, [OnCaptures(Delete(c))])) <==> LiveRefunds(db, before.org, before.payment) <= 0
  {
    hide Valid, CapturesValid, RefundsValid, Commits, Committed, Changed;
    CaptureDeleteCommitsExactly(db, c);
    ResourceParts(db);
    var before, after := Lookup(db.captures, CaptureKey, c.id).value, Removed(db, c);
    forall org: Id, payment: Id
      ensures CapturedAmount(after, org, payment) == CapturedAmount(db, org, payment) - CapturedOf(org, payment)(before)
    {
      RemovedAmount(db, c, org, payment);
    }
    CaptureCounts(db, before);
    if Covered(after) {
      assert LiveRefunds(after, before.org, before.payment) <= CapturedAmount(after, before.org, before.payment);
    }
    if LiveRefunds(db, before.org, before.payment) <= 0 {
      forall org: Id, payment: Id ensures LiveRefunds(after, org, payment) <= CapturedAmount(after, org, payment) {
        assert LiveRefunds(db, org, payment) <= CapturedAmount(db, org, payment);
      }
    }
  }
}
