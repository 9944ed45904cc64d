/**
 The writes of `RefundExactness` and `ResourceWrites` on a database that is reached from the empty one:
 payment 7 was authorized, captured and booked for any amount, and refunded in full. From there the
 guards let the capture be lowered or reverted, let payment 8 be refunded out of it or take over the
 refund, and let the booked journal grow.
 */
module RefundStory {
  import opened Basics
  import opened Rows
  import opened Sums
  import opened Database
  import opened LedgerBalance
  import opened RefundReservations
  import opened Acceptance
  import opened RefundExactness
  import opened ResourceWrites

  const CLEARING := Account(1, 1, 1, None, ProviderClearing)
  const PAYMENT := Payment(7, 1, 1, Captured)
  const OTHER := Payment(8, 1, 1, Created)
  const AUTHORIZING := Operation(1, 1, 1, 7, Authorize, 1, Succeeded)
  const CAPTURING := Operation(2, 1, 1, 7, Capture, 1, Succeeded)
  const BOOKED := Journal(5, 1, 1, None, Some(2), Capture, 1, Inr)

  function Hold(amount: int): Authorization { Authorization(1, 1, 1, 7, 1, amount, Succeeded) }
  function CaptureOf(amount: int): CaptureRow { CaptureRow(1, 1, 1, 7, 1, 2, amount, Succeeded, Some(5)) }
  function Charge(id: Id, side: Side, amount: int): Posting { Posting(id, 1, 1, 5, 1, side, amount, Inr) }
  function RefundOf(amount: int): RefundRow { RefundRow(2, 1, 1, 7, 1, 3, amount, Processing, None) }

  // --- the four transactions and the tables after each -----------------------------------------

  function Opening(): Transaction {
    [] + [AddAccount(CLEARING)] + [OnPayments(Insert(PAYMENT))] + [OnPayments(Insert(OTHER))]
  }

  function Authorizing(amount: int): Transaction {
    [] + [OnOperations(Insert(AUTHORIZING))] + [OnAuthorizations(Insert(Hold(amount)))]
  }

  function Capturing(amount: int): Transaction {
    [] + [OnOperations(Insert(CAPTURING))] + [OnJournals(Insert(BOOKED))]
    + [OnPostings(Insert(Charge(10, Debit, amount)))] + [OnPostings(Insert(Charge(11, Credit, amount)))]
    + [OnCaptures(Insert(CaptureOf(amount)))]
  }

  function Story(amount: int): seq<Transaction> {
    [] + [Opening()] + [Authorizing(amount)] + [Capturing(amount)] + [RefundTransaction(RefundOf(amount))]
  }

  function Opened(): Tables {
    EMPTY.(accounts := [CLEARING], payments := [PAYMENT, OTHER])
  }

  function Authorized(amount: int): Tables {
    Opened().(operations := [AUTHORIZING], authorizations := [Hold(amount)])
  }

  function Posted(amount: int, postings: seq<Posting>): Tables {
    Authorized(amount).(operations := [AUTHORIZING, CAPTURING], journals := [BOOKED], postings := postings)
  }

  function Settled(amount: int): Tables {
    Posted(amount, [Charge(10, Debit, amount), Charge(11, Credit, amount)]).(captures := [CaptureOf(amount)])
  }

  function Reached(amount: int): Tables {
    WithRefund(Settled(amount), RefundOf(amount))
  }

  // --- opening ---------------------------------------------------------------------------------

  lemma AccountDone()
    ensures ExecAll(Work(EMPTY, []), [] + [AddAccount(CLEARING)]) == Some(Work(EMPTY.(accounts := [CLEARING]), []))
    ensures Valid(EMPTY.(accounts := [CLEARING]))
  {
    EmptyValid();
    hide Valid;
    AccountAdded(EMPTY, CLEARING);
    assert EMPTY.accounts + [CLEARING] == [CLEARING];
    ExecSnoc(Work(EMPTY, []), [], Work(EMPTY, []), AddAccount(CLEARING), Work(EMPTY.(accounts := [CLEARING]), []));
  }

  lemma OpeningExecutes()
    ensures ExecAll(Work(EMPTY, []), Opening()) == Some(Work(Opened(), []))
    ensures Valid(Opened())
  {
    hide Valid, ExecAll;
    AccountDone();
    var one := EMPTY.(accounts := [CLEARING]);
    var two := one.(payments := [PAYMENT]);
    assert one.payments + [PAYMENT] == [PAYMENT] && two.payments + [OTHER] == [PAYMENT, OTHER];
    PaymentAdded(one, PAYMENT);
    PaymentAdded(two, OTHER);
    ExecSnoc(Work(EMPTY, []), [] + [AddAccount(CLEARING)], Work(one, []), OnPayments(Insert(PAYMENT)), Work(two, []));
    ExecSnoc(Work(EMPTY, []), [] + [AddAccount(CLEARING)] + [OnPayments(Insert(PAYMENT))], Work(two, []),
             OnPayments(Insert(OTHER)), Work(Opened(), []));
  }

  lemma OpeningCommits()
    ensures Commits(EMPTY, Opening()) && Committed(EMPTY, Opening()) == Opened()
  {
    OpeningExecutes();
  }

  // --- authorizing -----------------------------------------------------------------------------

  lemma OperationStep(db: Tables, ss: seq<Statement>, w: Work, o: Operation)
    requires ExecAll(Work(db, []), ss) == Some(w) && Valid(w.db) && OperationFits(w.db, o)
    ensures var v := Work(w.db.(operations := w.db.operations + [o]), w.events + [OperationWritten(o)]);
            ExecAll(Work(db, []), ss + [OnOperations(Insert(o))]) == Some(v) && Valid(v.db)
  {
    OperationInsertExec(w, o);
    assert (ss + [OnOperations(Insert(o))])[..|ss|] == ss;
  }

  lemma AuthorizingExecutes(amount: int)
    requires amount > 0
    ensures ExecAll(Work(Opened(), []), Authorizing(amount))
            == Some(Work(Authorized(amount), [OperationWritten(AUTHORIZING)]))
    ensures Valid(Authorized(amount))
  {
    hide Valid;
    var db := Opened();
    OpeningExecutes();
    assert db.payments[0] in db.payments;
    OperationStep(db, [], Work(db, []), AUTHORIZING);
    var half := Work(db.(operations := [AUTHORIZING]), [OperationWritten(AUTHORIZING)]);
    assert db.operations + [AUTHORIZING] == [AUTHORIZING] && [] + half.events == half.events;
    AuthorizationAdded(half.db, Hold(amount));
    assert half.db.authorizations + [Hold(amount)] == [Hold(amount)];
    ExecSnoc(Work(db, []), [] + [OnOperations(Insert(AUTHORIZING))], half, OnAuthorizations(Insert(Hold(amount))),
             Work(Authorized(amount), half.events));
  }

  lemma AuthorizingCommits(amount: int)
    requires amount > 0
    ensures Commits(Opened(), Authorizing(amount)) && Committed(Opened(), Authorizing(amount)) == Authorized(amount)
  {
    AuthorizingExecutes(amount);
    var db := Authorized(amount);
    assert db.authorizations[0] in db.authorizations && db.operations[0] in db.operations;
  }

  // --- capturing -------------------------------------------------------------------------------

  function CapturingEvents(amount: int, k: nat): seq<Event>
    requires k <= 4
  {
    [OperationWritten(CAPTURING), JournalInserted(BOOKED), PostingInserted(Charge(10, Debit, amount)),
     PostingInserted(Charge(11, Credit, amount))][..k]
  }

  lemma OperationDone(amount: int)
    requires amount > 0
    ensures var db := Authorized(amount).(operations := [AUTHORIZING, CAPTURING]);
            && ExecAll(Work(Authorized(amount), []), [] + [OnOperations(Insert(CAPTURING))])
               == Some(Work(db, CapturingEvents(amount, 1)))
            && Valid(db)
  {
    hide Valid;
    var db := Authorized(amount);
    AuthorizingExecutes(amount);
    assert db.payments[0] in db.payments;
    OperationStep(db, [], Work(db, []), CAPTURING);
    assert db.operations + [CAPTURING] == [AUTHORIZING, CAPTURING];
    assert [] + [OperationWritten(CAPTURING)] == CapturingEvents(amount, 1);
  }

  lemma JournalStep(amount: int)
    requires amount > 0
    ensures var ss := [] + [OnOperations(Insert(CAPTURING))] + [OnJournals(Insert(BOOKED))];
            && ExecAll(Work(Authorized(amount), []), ss) == Some(Work(Posted(amount, []), CapturingEvents(amount, 2)))
            && Valid(Posted(amount, []))
  {
    hide Valid, ExecAll;
    var db := Authorized(amount);
    var half := Work(db.(operations := [AUTHORIZING, CAPTURING]), CapturingEvents(amount, 1));
    OperationDone(amount);
    assert half.db.operations[1] in half.db.operations;
    JournalAdded(half.db, BOOKED);
    assert half.db.journals + [BOOKED] == [BOOKED];
    assert half.events + [JournalInserted(BOOKED)] == CapturingEvents(amount, 2);
    ExecSnoc(Work(db, []), [] + [OnOperations(Insert(CAPTURING))], half, OnJournals(Insert(BOOKED)),
             Work(Posted(amount, []), CapturingEvents(amount, 2)));
  }

  lemma ChargeStep(amount: int, postings: seq<Posting>, p: Posting, w: Work, v: Work)
    requires p.amount > 0 && p == Charge(p.id, p.side, p.amount) && forall q :: q in postings ==> q.id != p.id
    requires w.db == Posted(amount, postings) && Valid(w.db)
    requires v == Work(Posted(amount, postings + [p]), w.events + [PostingInserted(p)])
    ensures Exec(w, OnPostings(Insert(p))) == Some(v) && Valid(v.db)
  {
    assert w.db.journals[0] in w.db.journals && w.db.accounts[0] in w.db.accounts;
    PostingInsertExec(w, p);
  }

  lemma ChargesExecute(amount: int)
    requires amount > 0
    ensures var posted := Posted(amount, [Charge(10, Debit, amount), Charge(11, Credit, amount)]);
            && ExecAll(Work(Authorized(amount), []), Capturing(amount)[..4])
               == Some(Work(posted, CapturingEvents(amount, 4)))
            && Valid(posted)
  {
    hide Valid;
    var d, c := Charge(10, Debit, amount), Charge(11, Credit, amount);
    var w2 := Work(Posted(amount, []), CapturingEvents(amount, 2));
    var w3 := Work(Posted(amount, [d]), CapturingEvents(amount, 3));
    var w4 := Work(Posted(amount, [d, c]), CapturingEvents(amount, 4));
    JournalStep(amount);
    assert [] + [d] == [d] && [d] + [c] == [d, c];
    assert w2.events + [PostingInserted(d)] == w3.events && w3.events + [PostingInserted(c)] == w4.events;
    ChargeStep(amount, [], d, w2, w3);
    ChargeStep(amount, [d], c, w3, w4);
    var ss := Capturing(amount);
    assert ss[..2] == [] + [OnOperations(Insert(CAPTURING))] + [OnJournals(Insert(BOOKED))];
    assert ss[..3] == ss[..2] + [OnPostings(Insert(d))] && ss[..4] == ss[..3] + [OnPostings(Insert(c))];
    assert ss[..3][..2] == ss[..2] && ss[..4][..3] == ss[..3];
  }

  lemma CapturingExecutes(amount: int)
    requires amount > 0
    ensures ExecAll(Work(Authorized(amount), []), Capturing(amount))
         == Some(Work(Settled(amount), CapturingEvents(amount, 4) + [CaptureWritten(CaptureOf(amount), true)]))
    ensures Valid(Settled(amount))
  {
    hide Valid;
    ChargesExecute(amount);
    var db := Posted(amount, [Charge(10, Debit, amount), Charge(11, Credit, amount)]);
    var c := CaptureOf(amount);
    assert db.payments[0] in db.payments && db.authorizations[0] in db.authorizations && db.journals[0] in db.journals;
    CaptureAdded(db, c);
    assert db.captures + [c] == [c];
    assert Capturing(amount) == Capturing(amount)[..4] + [OnCaptures(Insert(c))];
    ExecSnoc(Work(Authorized(amount), []), Capturing(amount)[..4], Work(db, CapturingEvents(amount, 4)),
             OnCaptures(Insert(c)), Work(Settled(amount), CapturingEvents(amount, 4) + [CaptureWritten(c, true)]));
  }

  lemma SettledSums(amount: int, f: Posting -> int)
    ensures Sum(Settled(amount).postings, f) == f(Charge(10, Debit, amount)) + f(Charge(11, Credit, amount))
  {
    SumTwo(Charge(10, Debit, amount), Charge(11, Credit, amount), f);
  }

  lemma SettledAccepted(amount: int)
    requires amount > 0
    ensures OperationKeysHold(Settled(amount))
    ensures forall e :: e in CapturingEvents(amount, 4) + [CaptureWritten(CaptureOf(amount), true)] ==>
              !Rejects(Settled(amount), e)
  {
    var db := Settled(amount);
    assert db.captures[0] in db.captures && db.operations[0] in db.operations && db.operations[1] in db.operations;
    SettledSums(amount, CountOf(5));
    SettledSums(amount, DebitOf(5));
    SettledSums(amount, CreditOf(5));
    SettledSums(amount, WrongCurrencyOf(5, CurrencyOf(db, 5)));
    FindsRow(db.operations, OperationKey, CAPTURING);
  }

  lemma CapturingCommits(amount: int)
    requires amount > 0
    ensures Commits(Authorized(amount), Capturing(amount))
    ensures Committed(Authorized(amount), Capturing(amount)) == Settled(amount)
  {
    hide Valid;
    hide Rejects;
    CapturingExecutes(amount);
    SettledAccepted(amount);
  }

  // --- the refund ------------------------------------------------------------------------------

  lemma RefundingCommits(amount: int)
    requires amount > 0
    ensures Commits(Settled(amount), RefundTransaction(RefundOf(amount)))
    ensures Committed(Settled(amount), RefundTransaction(RefundOf(amount))) == Reached(amount)
  {
    hide Valid, Commits, Committed;
    var db, r := Settled(amount), RefundOf(amount);
    CapturingExecutes(amount);
    SettledAccepted(amount);
    assert db.payments[0] in db.payments && db.captures[0] in db.captures;
    RefundCommitsWhen(db, r);
  }

  /** The story is a run from the empty database. */
  lemma StoryReaches(amount: int)
    requires amount > 0
    ensures Run(EMPTY, Story(amount)) == Reached(amount)
  {
    OpeningCommits();
    AuthorizingCommits(amount);
    CapturingCommits(amount);
    RefundingCommits(amount);
    hide Commits;
    hide Committed;
    RunSnoc([], EMPTY, Opening());
    RunSnoc([] + [Opening()], Opened(), Authorizing(amount));
    RunSnoc([] + [Opening()] + [Authorizing(amount)], Authorized(amount), Capturing(amount));
    RunSnoc([] + [Opening()] + [Authorizing(amount)] + [Capturing(amount)], Settled(amount),
            RefundTransaction(RefundOf(amount)));
  }

  /** After it, everything the guards and the discipline promise holds: the payment is covered and booked. */
  lemma ReachedIsSound(amount: int)
    requires amount > 0
    ensures var db := Reached(amount);
            Valid(db) && OperationKeysHold(db) && Covered(db) && AllBalanced(db) && AllBooked(db)
  {
    hide Valid, OperationKeysHold, AllBalanced, Run;
    var db := Reached(amount);
    StoryReaches(amount);
    RunValid(Story(amount));
    EveryJournalBalances(Story(amount));
    forall org: Id, payment: Id ensures LiveRefunds(db, org, payment) <= CapturedAmount(db, org, payment) {
      LiveWithRefund(Settled(amount), RefundOf(amount), org, payment);
      SumOne(CaptureOf(amount), CapturedOf(org, payment));
    }
    assert db.captures[0] in db.captures;
    SettledSums(amount, DebitOf(5));
    assert BooksCapture(db, BOOKED, CaptureOf(amount));
  }

  // --- what the guards let through -------------------------------------------------------------

  lemma ReachedRefunds(amount: int, org: Id, payment: Id)
    ensures LiveRefunds(Reached(amount), org, payment) == LiveRefundOf(org, payment)(RefundOf(amount))
  {
    LiveWithRefund(Settled(amount), RefundOf(amount), org, payment);
  }

  lemma RewriteAccepted(amount: int, row: CaptureRow)
    requires amount > 0 && 0 < row.amount <= amount
    requires row == CaptureOf(amount).(amount := row.amount, status := row.status, journal := row.journal)
    requires if row.status.Succeeded? then row.journal == Some(5) else row.journal == None
    ensures Commits(Reached(amount), [OnCaptures(Update(row))])
  {
    hide Valid, Covered, AllBalanced, AllBooked, Commits, Committed, OperationKeysHold;
    var db := Reached(amount);
    ReachedIsSound(amount);
    assert db.captures == [CaptureOf(amount)];
    assert CaptureFits(db, row) by {
      assert db.payments[0] in db.payments && db.authorizations[0] in db.authorizations
             && db.journals[0] in db.journals;
    }
    assert db.operations[1] in db.operations;
    RewriteCommitsWhen(db, row);
  }

  /** A captured amount is lowered, or the capture reverted, under its live refunds. */
  lemma RewriteUncovers(amount: int, row: CaptureRow)
    requires amount > 0 && 0 < row.amount <= amount && CapturedOf(1, 7)(row) < amount
    requires row == CaptureOf(amount).(amount := row.amount, status := row.status, journal := row.journal)
    requires if row.status.Succeeded? then row.journal == Some(5) else row.journal == None
    ensures Run(EMPTY, Story(amount)) == Reached(amount) && Covered(Reached(amount))
    ensures Commits(Reached(amount), [OnCaptures(Update(row))])
    ensures !Covered(Committed(Reached(amount), [OnCaptures(Update(row))]))
  {
    hide Valid, Covered, AllBalanced, AllBooked, Commits, Committed;
    StoryReaches(amount);
    ReachedIsSound(amount);
    RewriteAccepted(amount, row);
    RewriteKeepsCoverExactly(Reached(amount), row);
    ReachedRefunds(amount, 1, 7);
  }

  /** A refund of payment 8 out of payment 7's capture. */
  function Borrowed(part: int): RefundRow { RefundRow(4, 1, 1, 8, 1, 4, part, Processing, None) }

  lemma BorrowAccepted(amount: int, part: int)
    requires 0 < part <= amount
    ensures Commits(Reached(amount), RefundTransaction(Borrowed(part)))
  {
    hide Valid, Covered, AllBalanced, AllBooked, Commits, Committed;
    var db, r := Reached(amount), Borrowed(part);
    ReachedIsSound(amount);
    assert OperationFits(db, OperationOf(r)) by { assert db.payments[1] in db.payments; }
    assert RefundFits(db, r) by { assert db.payments[1] in db.payments && db.captures[0] in db.captures; }
    assert CaptureBears(db, r) by {
      ReachedRefunds(amount, 1, 8);
      assert db.captures[0] in db.captures;
    }
    RefundCommitsWhen(db, r);
  }

  /** Payment 8, which captured nothing, is refunded. */
  lemma BorrowUncovers(amount: int, part: int)
    requires 0 < part <= amount
    ensures Run(EMPTY, Story(amount)) == Reached(amount) && Covered(Reached(amount))
    ensures Commits(Reached(amount), RefundTransaction(Borrowed(part)))
    ensures !Covered(Committed(Reached(amount), RefundTransaction(Borrowed(part))))
  {
    hide Valid, Covered, AllBalanced, AllBooked, Commits, Committed;
    StoryReaches(amount);
    ReachedIsSound(amount);
    BorrowAccepted(amount, part);
    RefundKeepsCoverExactly(Reached(amount), Borrowed(part));
    ReachedRefunds(amount, 1, 8);
    SumOne(CaptureOf(amount), CapturedOf(1, 8));
  }

  /** Payment 7's refund, moved to payment 8. */
  function Moved(amount: int): RefundRow { RefundOf(amount).(payment := 8) }

  lemma MoveAccepted(amount: int)
    requires amount > 0
    ensures Position(Reached(amount).refunds, RefundKey, 2).Some?
            && LiveWithout(Reached(amount), Moved(amount)) == amount
    ensures Commits(Reached(amount), [OnRefunds(Update(Moved(amount)))])
  {
    hide Valid, Covered, AllBalanced, AllBooked, Commits, Committed, OperationKeysHold;
    var db, r := Reached(amount), Moved(amount);
    ReachedIsSound(amount);
    assert db.refunds == [RefundOf(amount)];
    assert RefundReplaces(db, r) by { assert db.payments[1] in db.payments && db.captures[0] in db.captures; }
    ReachedRefunds(amount, 1, 8);
    assert db.captures[0] in db.captures && db.operations[2] in db.operations;
    RefundRewriteCommitsWhen(db, r);
  }

  /** The operation is not written, so nothing ties the refund to its payment any more. */
  lemma MoveUncovers(amount: int)
    requires amount > 0
    ensures Run(EMPTY, Story(amount)) == Reached(amount) && Covered(Reached(amount))
    ensures Commits(Reached(amount), [OnRefunds(Update(Moved(amount)))])
    ensures !Covered(Committed(Reached(amount), [OnRefunds(Update(Moved(amount)))]))
  {
    hide Valid, Covered, AllBalanced, AllBooked, Commits, Committed, LiveWithout;
    StoryReaches(amount);
    ReachedIsSound(amount);
    MoveAccepted(amount);
    RefundRewriteKeepsCoverExactly(Reached(amount), Moved(amount));
    SumOne(CaptureOf(amount), CapturedOf(1, 8));
  }

  /** A pair of postings that offset each other, added to the booked journal. */
  function Late(extra: int): seq<Posting> {
    [Charge(12, Debit, extra), Charge(13, Credit, extra)]
  }

  lemma LateFit(amount: int, extra: int)
    requires amount > 0 && extra > 0
    ensures PostingsFit(Reached(amount), Late(extra))
  {
    var db, ps := Reached(amount), Late(extra);
    assert ps[..1] == [ps[0]] && [ps[0]][..0] == [];
    assert db.journals[0] in db.journals && db.accounts[0] in db.accounts;
    assert PostingFits(WithPostings(db, []), ps[0]);
    assert PostingsFit(db, []) && PostingsFit(db, [ps[0]]);
    assert PostingFits(WithPostings(db, [ps[0]]), ps[1]);
  }

  lemma LateAccepted(amount: int, extra: int)
    requires amount > 0 && extra > 0
    ensures Commits(Reached(amount), PostingInserts(Late(extra)))
  {
    hide Valid, Covered, AllBalanced, AllBooked, Commits, Committed;
    var db, ps := Reached(amount), Late(extra);
    ReachedIsSound(amount);
    LateFit(amount, extra);
    hide PostingsFit;
    SumTwo(ps[0], ps[1], DebitOf(5));
    SumTwo(ps[0], ps[1], CreditOf(5));
    PostingsCommitWhen(db, ps);
  }

  /** The CAPTURE journal grows past what was captured. */
  lemma LatePostingsUnbook(amount: int, extra: int)
    requires amount > 0 && extra > 0
    ensures Run(EMPTY, Story(amount)) == Reached(amount) && AllBooked(Reached(amount))
    ensures Commits(Reached(amount), PostingInserts(Late(extra)))
    ensures !AllBooked(Committed(Reached(amount), PostingInserts(Late(extra))))
  {
    hide Valid, Covered, AllBalanced, AllBooked, Commits, Committed;
    StoryReaches(amount);
    ReachedIsSound(amount);
    LateAccepted(amount, extra);
    PostingsKeepBooksExactly(Reached(amount), Late(extra));
    assert Late(extra)[0] in Late(extra) && Reached(amount).journals[0] in Reached(amount).journals;
  }
}
