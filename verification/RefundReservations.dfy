/**
 What the refund guards of migration 0002 keep over whole runs: a payment's live refunds never
 exceed what was captured, and its REFUND journals never total more than its CAPTURE journal. The
 guards look only at the refund rows a transaction wrote, so the properties also need the
 discipline of the writers, stated here as predicates on each committed step. `PaymentServices` shows
 that the payment services keep it; `RefundExactness` says exactly which writes break the properties.
 */
module RefundReservations {
  import opened Sums
  import opened Basics
  import opened Rows
  import opened Database

  function CapturedOf(org: Id, payment: Id): CaptureRow -> int {
    (c: CaptureRow) => if c.org == org && c.payment == payment && c.status.Succeeded? then c.amount else 0
  }

  function LiveRefunds(db: Tables, org: Id, payment: Id): int {
    Sum(db.refunds, LiveRefundOf(org, payment))
  }

  function CapturedAmount(db: Tables, org: Id, payment: Id): int {
    Sum(db.captures, CapturedOf(org, payment))
  }

  ghost predicate Covered(db: Tables) {
    forall org: Id, payment: Id :: LiveRefunds(db, org, payment) <= CapturedAmount(db, org, payment)
  }

  // --- the discipline of the writers -----------------------------------------------------------

  predicate SameCapture(c: CaptureRow, d: CaptureRow) {
    c.id == d.id && c.org == d.org && c.env == d.env && c.payment == d.payment && c.amount == d.amount
    && c.status == d.status
  }

  /** A succeeded capture keeps its payment, amount and status. */
  ghost predicate CapturesKept(before: Tables, after: Tables) {
    forall c :: c in before.captures && c.status.Succeeded? ==> exists d :: d in after.captures && SameCapture(c, d)
  }

  /** Each refund names the capture of its own payment. */
  ghost predicate RefundsOwnTheirCapture(db: Tables) {
    forall r, c :: r in db.refunds && c in db.captures && c.id == r.capture ==> c.payment == r.payment
  }

  // --- live refunds ----------------------------------------------------------------------------

  /** Every refund row is an old one or was queued for the reservation check in its present form. */
  lemma {:induction false} RefundsAreTracked(w: Work, ss: seq<Statement>)
    requires ExecAll(w, ss).Some?
    ensures var v := ExecAll(w, ss).value;
            forall r :: r in v.db.refunds ==> r in w.db.refunds || RefundWritten(r) in v.events
  {
    if ss != [] {
      var u := ExecAll(w, ss[..|ss| - 1]).value;
      RefundsAreTracked(w, ss[..|ss| - 1]);
      RefundsTrackedByOne(u, ss[|ss| - 1]);
      ExecAllGrows(u, [ss[|ss| - 1]]);
    }
  }

  lemma RefundsTrackedByOne(w: Work, s: Statement)
    requires Apply(w, s).Some?
    ensures var v := Apply(w, s).value;
            && w.events <= v.events
            && forall r :: r in v.db.refunds ==> r in w.db.refunds || RefundWritten(r) in v.events
  {
  }

  lemma CaptureCounts(db: Tables, c: CaptureRow)
    requires CapturesValid(db) && c in db.captures
    ensures CapturedAmount(db, c.org, c.payment) == CapturedOf(c.org, c.payment)(c)
  {
    var i :| 0 <= i < |db.captures| && db.captures[i] == c;
    var f := CapturedOf(c.org, c.payment);
    forall k | 0 <= k < |db.captures| && k != i ensures f(db.captures[k]) == 0 {
      assert CaptureKey(db.captures[k]) != CaptureKey(db.captures[i]);
      assert f(db.captures[k]) != 0 ==> CapturesClash(db.captures[k], c);
    }
    SumExactlyOne(db.captures, i, f);
  }

  lemma CapturedAmountKept(before: Tables, after: Tables, org: Id, payment: Id)
    requires CapturesValid(before) && CapturesValid(after) && CapturesKept(before, after)
    ensures CapturedAmount(before, org, payment) <= CapturedAmount(after, org, payment)
  {
    forall c | c in after.captures ensures 0 <= CapturedOf(org, payment)(c) {}
    SumNonNegative(after.captures, CapturedOf(org, payment));
    if c :| c in before.captures && CapturedOf(org, payment)(c) != 0 {
      CaptureCounts(before, c);
      var d :| d in after.captures && SameCapture(c, d);
      CaptureCounts(after, d);
    } else {
      SumZero(before.captures, CapturedOf(org, payment));
    }
  }

  /** Refund rows that were all there before reserve no more than before. */
  lemma OldRefundsReserveNoMore(before: Tables, after: Tables, org: Id, payment: Id)
    requires RefundsValid(before) && RefundsValid(after)
    requires forall r :: r in after.refunds && LiveRefundOf(org, payment)(r) > 0 ==> r in before.refunds
    ensures LiveRefunds(after, org, payment) <= LiveRefunds(before, org, payment)
  {
    var f := LiveRefundOf(org, payment);
    var same := (a: RefundRow, b: RefundRow) => a == b;
    forall a | a in after.refunds && f(a) > 0
      ensures exists k :: MatchedBy(a, before.refunds, k, same) && f(a) <= f(before.refunds[k])
    {
      var k :| 0 <= k < |before.refunds| && before.refunds[k] == a;
      assert MatchedBy(a, before.refunds, k, same);
    }
    forall i, j, k | 0 <= i < j < |after.refunds| && MatchedBy(after.refunds[i], before.refunds, k, same)
      ensures !MatchedBy(after.refunds[j], before.refunds, k, same)
    {
      assert RefundKey(after.refunds[i]) != RefundKey(after.refunds[j]);
    }
    SumMatched(after.refunds, before.refunds, f, f, same);
  }

  /** A refund image that passed the deferred check bounds its payment's live refunds. */
  lemma AcceptedRefundIsCovered(db: Tables, r: RefundRow)
    requires CapturesValid(db) && RefundsValid(db) && RefundsOwnTheirCapture(db)
    requires r in db.refunds && !RefundRejects(db, r)
    ensures LiveRefunds(db, r.org, r.payment) <= CapturedAmount(db, r.org, r.payment)
  {
    assert RefundLinked(db, r);
    var c :| c in db.captures && c.id == r.capture && c.org == r.org;
    var found := Lookup(db.captures, CaptureKey, r.capture).value;
    SameRow(db.captures, CaptureKey, c, found);
    CaptureCounts(db, c);
  }

  /** A payment whose refunds were written passed the check; any other keeps what it had. */
  lemma PaymentKeepsCover(db: Tables, w: Work, org: Id, payment: Id)
    requires CapturesValid(db) && RefundsValid(db) && CapturesValid(w.db) && RefundsValid(w.db)
    requires LiveRefunds(db, org, payment) <= CapturedAmount(db, org, payment)
    requires CapturesKept(db, w.db) && RefundsOwnTheirCapture(w.db)
    requires forall r :: r in w.db.refunds ==> r in db.refunds || RefundWritten(r) in w.events
    requires forall e :: e in w.events ==> !Rejects(w.db, e)
    ensures LiveRefunds(w.db, org, payment) <= CapturedAmount(w.db, org, payment)
  {
    if r :| r in w.db.refunds && LiveRefundOf(org, payment)(r) > 0 && RefundWritten(r) in w.events {
      AcceptedRefundIsCovered(w.db, r);
    } else {
      OldRefundsReserveNoMore(db, w.db, org, payment);
      CapturedAmountKept(db, w.db, org, payment);
    }
  }

  lemma CommitKeepsCover(db: Tables, tx: Transaction)
    requires Valid(db) && Covered(db) && Commits(db, tx)
    requires CapturesKept(db, Committed(db, tx)) && RefundsOwnTheirCapture(Committed(db, tx))
    ensures Covered(Committed(db, tx))
  {
    var w := ExecAll(Work(db, []), tx).value;
    ExecAllValid(Work(db, []), tx);
    RefundsAreTracked(Work(db, []), tx);
    forall org: Id, payment: Id ensures LiveRefunds(w.db, org, payment) <= CapturedAmount(w.db, org, payment) {
      assert LiveRefunds(db, org, payment) <= CapturedAmount(db, org, payment);
      PaymentKeepsCover(db, w, org, payment);
    }
  }

  ghost predicate DisciplinedStep(before: Tables, after: Tables) {
    CapturesKept(before, after) && RefundsOwnTheirCapture(after)
  }

  /** Every committed step of the run was disciplined. */
  ghost predicate DisciplinedRun(txs: seq<Transaction>) {
    forall k :: 0 < k <= |txs| ==> DisciplinedStep(Run(EMPTY, txs[..k - 1]), Run(EMPTY, txs[..k]))
  }

  lemma PrefixDisciplined(txs: seq<Transaction>)
    requires DisciplinedRun(txs) && txs != []
    ensures DisciplinedRun(txs[..|txs| - 1])
    ensures DisciplinedStep(Run(EMPTY, txs[..|txs| - 1]), Run(EMPTY, txs))
  {
    var front := txs[..|txs| - 1];
    assert forall k :: 0 <= k <= |front| ==> front[..k] == txs[..k];
    assert txs[..|txs|] == txs;
  }

  lemma StepKeepsCover(db: Tables, tx: Transaction)
    requires Valid(db) && Covered(db) && DisciplinedStep(db, Committed(db, tx))
    ensures Covered(Committed(db, tx))
  {
    if Commits(db, tx) {
      CommitKeepsCover(db, tx);
    }
  }

  /** After any disciplined run, no payment has more live refunds than it captured. */
  lemma {:induction false} LiveRefundsNeverExceedCapture(txs: seq<Transaction>)
    requires DisciplinedRun(txs)
    ensures Covered(Run(EMPTY, txs))
  {
    if txs != [] {
      var n := |txs| - 1;
      PrefixDisciplined(txs);
      LiveRefundsNeverExceedCapture(txs[..n]);
      RunValid(txs[..n]);
      StepKeepsCover(Run(EMPTY, txs[..n]), txs[n]);
    }
  }

  // --- journals --------------------------------------------------------------------------------

  function JournalTotal(db: Tables, journal: Id): int {
    Sum(db.postings, DebitOf(journal))
  }

  /** A REFUND journal books exactly a succeeded refund of its own scope; a CAPTURE journal, a capture. */
  ghost predicate Books(db: Tables, j: Journal) {
    && (j.kind.Refund? ==> exists r :: r in db.refunds && BooksRefund(db, j, r))
    && (j.kind.Capture? ==> exists c :: c in db.captures && BooksCapture(db, j, c))
  }

  predicate BooksRefund(db: Tables, j: Journal, r: RefundRow) {
    SettledRefund(j, r) && r.amount == JournalTotal(db, j.id)
  }

  predicate BooksCapture(db: Tables, j: Journal, c: CaptureRow) {
    SettledCapture(j, c) && c.amount == JournalTotal(db, j.id)
  }

  predicate SettledRefund(j: Journal, r: RefundRow) {
    r.id == j.reference && r.org == j.org && r.env == j.env && r.status.Succeeded?
  }

  predicate SettledCapture(j: Journal, c: CaptureRow) {
    c.id == j.reference && c.org == j.org && c.env == j.env && c.status.Succeeded?
  }

  ghost predicate AllBooked(db: Tables) {
    forall j :: j in db.journals ==> Books(db, j)
  }

  predicate SameRefund(r: RefundRow, q: RefundRow) {
    r.id == q.id && r.org == q.org && r.env == q.env && r.payment == q.payment && r.amount == q.amount
    && r.status == q.status
  }

  /** Succeeded refunds are not rewritten or deleted. */
  ghost predicate RefundsKept(before: Tables, after: Tables) {
    forall r :: r in before.refunds && r.status.Succeeded? ==> exists q :: q in after.refunds && SameRefund(r, q)
  }

  /** A CAPTURE or REFUND journal gets all its postings in the transaction that inserts it. */
  ghost predicate PostingsComeWithTheirJournal(before: Tables, after: Tables) {
    forall i, j | |before.postings| <= i < |after.postings| && j in before.journals
                  && (j.kind.Capture? || j.kind.Refund?) :: after.postings[i].journal != j.id
  }

  /** A CAPTURE or REFUND journal is inserted by the transaction that marks its resource SUCCEEDED. */
  ghost predicate JournalsSettleTheirResource(before: Tables, after: Tables) {
    forall j :: j in after.journals && j !in before.journals ==>
      && (j.kind.Refund? ==> exists r :: r in after.refunds && SettledRefund(j, r))
      && (j.kind.Capture? ==> exists c :: c in after.captures && SettledCapture(j, c))
  }

  ghost predicate FinalizerStep(before: Tables, after: Tables) {
    && DisciplinedStep(before, after)
    && RefundsKept(before, after)
    && PostingsComeWithTheirJournal(before, after)
    && JournalsSettleTheirResource(before, after)
  }

  ghost predicate FinalizerRun(txs: seq<Transaction>) {
    forall k :: 0 < k <= |txs| ==> FinalizerStep(Run(EMPTY, txs[..k - 1]), Run(EMPTY, txs[..k]))
  }

  lemma NewJournalBooks(db: Tables, w: Work, j: Journal)
    requires CapturesValid(w.db) && RefundsValid(w.db)
    requires JournalsSettleTheirResource(db, w.db)
    requires j in w.db.journals && j !in db.journals && !JournalOperationRejects(w.db, j)
    ensures Books(w.db, j)
  {
    if j.kind.Refund? {
      var r :| r in w.db.refunds && SettledRefund(j, r);
      var found := Lookup(w.db.refunds, RefundKey, j.reference).value;
      SameRow(w.db.refunds, RefundKey, r, found);
      assert BooksRefund(w.db, j, r);
    } else if j.kind.Capture? {
      var c :| c in w.db.captures && SettledCapture(j, c);
      var found := Lookup(w.db.captures, CaptureKey, j.reference).value;
      SameRow(w.db.captures, CaptureKey, c, found);
      assert BooksCapture(w.db, j, c);
    }
  }

  lemma OldJournalBooks(db: Tables, after: Tables, j: Journal)
    requires db.postings <= after.postings && FinalizerStep(db, after)
    requires j in db.journals && Books(db, j)
    ensures Books(after, j)
  {
    if j.kind.Refund? || j.kind.Capture? {
      SumUnchanged(db.postings, after.postings, DebitOf(j.id));
    }
    if j.kind.Refund? {
      var r :| r in db.refunds && BooksRefund(db, j, r);
      var q :| q in after.refunds && SameRefund(r, q);
      assert BooksRefund(after, j, q);
    } else if j.kind.Capture? {
      var c :| c in db.captures && BooksCapture(db, j, c);
      var d :| d in after.captures && SameCapture(c, d);
      assert BooksCapture(after, j, d);
    }
  }

  lemma CommitKeepsBooks(db: Tables, tx: Transaction)
    requires Valid(db) && AllBooked(db) && Commits(db, tx)
    requires FinalizerStep(db, Committed(db, tx))
    ensures AllBooked(Committed(db, tx))
  {
    var w := ExecAll(Work(db, []), tx).value;
    ExecAllValid(Work(db, []), tx);
    ExecAllGrows(Work(db, []), tx);
    forall j | j in w.db.journals ensures Books(w.db, j) {
      if j in db.journals {
        OldJournalBooks(db, w.db, j);
      } else {
        var i :| 0 <= i < |w.db.journals| && w.db.journals[i] == j;
        assert JournalInserted(w.db.journals[i]) in w.events;
        NewJournalBooks(db, w, j);
      }
    }
  }

  lemma {:induction false} EveryJournalBooksItsResource(txs: seq<Transaction>)
    requires FinalizerRun(txs)
    ensures AllBooked(Run(EMPTY, txs))
  {
    if txs != [] {
      var n := |txs| - 1;
      assert forall k :: 0 <= k <= n ==> txs[..n][..k] == txs[..k];
      EveryJournalBooksItsResource(txs[..n]);
      RunValid(txs[..n]);
      assert txs[..n + 1] == txs;
      if Commits(Run(EMPTY, txs[..n]), txs[n]) {
        CommitKeepsBooks(Run(EMPTY, txs[..n]), txs[n]);
      }
    }
  }

  /** What a journal adds to a payment's booked refunds: its total if it books a refund of that payment. */
  ghost function BookedRefundOf(db: Tables, org: Id, payment: Id): Journal -> int {
    (j: Journal) => if RefundsPayment(db, org, payment, j) then JournalTotal(db, j.id) else 0
  }

  ghost predicate RefundsPayment(db: Tables, org: Id, payment: Id, j: Journal) {
    j.kind.Refund? && exists r :: r in db.refunds && r.id == j.reference && r.org == org && r.payment == payment
  }

  function Settles(): (Journal, RefundRow) -> bool {
    (j: Journal, r: RefundRow) => j.kind.Refund? && SettledRefund(j, r)
  }

  lemma BookedRefundIsLive(db: Tables, org: Id, payment: Id, j: Journal)
    requires Unique(db.refunds, RefundKey) && Books(db, j) && BookedRefundOf(db, org, payment)(j) > 0
    ensures exists k :: MatchedBy(j, db.refunds, k, Settles())
                     && BookedRefundOf(db, org, payment)(j) <= LiveRefundOf(org, payment)(db.refunds[k])
  {
    var r :| r in db.refunds && BooksRefund(db, j, r);
    var q :| q in db.refunds && q.id == j.reference && q.org == org && q.payment == payment;
    SameRow(db.refunds, RefundKey, r, q);
    var k :| 0 <= k < |db.refunds| && db.refunds[k] == r;
    assert MatchedBy(j, db.refunds, k, Settles());
  }

  lemma RefundIsBookedOnce(db: Tables, i: nat, j: nat, k: nat)
    requires JournalsValid(db) && i < j < |db.journals| && MatchedBy(db.journals[i], db.refunds, k, Settles())
    ensures !MatchedBy(db.journals[j], db.refunds, k, Settles())
  {
    assert JournalKey(db.journals[i]) != JournalKey(db.journals[j]);
    if MatchedBy(db.journals[j], db.refunds, k, Settles()) {
      assert SameReferenceSlot(db.journals[i], db.journals[j]);
    }
  }

  /** Every booked refund is its own succeeded refund row. */
  lemma BookedRefundsAreLive(db: Tables, org: Id, payment: Id)
    requires Valid(db) && AllBooked(db)
    ensures Sum(db.journals, BookedRefundOf(db, org, payment)) <= LiveRefunds(db, org, payment)
  {
    assert Unique(db.refunds, RefundKey) && JournalsValid(db) && forall r :: r in db.refunds ==> r.amount > 0;
    hide Valid, JournalsValid, Books, Settles, BookedRefundOf, MatchedBy;
    var f, g := BookedRefundOf(db, org, payment), LiveRefundOf(org, payment);
    forall j | j in db.journals && f(j) > 0
      ensures exists k :: MatchedBy(j, db.refunds, k, Settles()) && f(j) <= g(db.refunds[k])
    {
      BookedRefundIsLive(db, org, payment, j);
    }
    forall i, j, k | 0 <= i < j < |db.journals| && MatchedBy(db.journals[i], db.refunds, k, Settles())
      ensures !MatchedBy(db.journals[j], db.refunds, k, Settles())
    {
      RefundIsBookedOnce(db, i, j, k);
    }
    SumMatched(db.journals, db.refunds, f, g, Settles());
  }

  /** After any run of the finalizer, a payment's REFUND journals total at most its CAPTURE journal. */
  lemma RefundJournalsNeverExceedCaptureJournal(txs: seq<Transaction>, captured: Journal, c: CaptureRow)
    requires FinalizerRun(txs)
    requires captured in Run(EMPTY, txs).journals && captured.kind.Capture?
    requires c in Run(EMPTY, txs).captures && c.id == captured.reference
    ensures var db := Run(EMPTY, txs);
            Sum(db.journals, BookedRefundOf(db, c.org, c.payment)) <= JournalTotal(db, captured.id)
  {
    var db := Run(EMPTY, txs);
    RunValid(txs);
    forall k | 0 < k <= |txs| ensures DisciplinedStep(Run(EMPTY, txs[..k - 1]), Run(EMPTY, txs[..k])) {
      assert FinalizerStep(Run(EMPTY, txs[..k - 1]), Run(EMPTY, txs[..k]));
    }
    LiveRefundsNeverExceedCapture(txs);
    EveryJournalBooksItsResource(txs);
    BookedRefundsAreLive(db, c.org, c.payment);
    assert Books(db, captured);
    var d :| d in db.captures && BooksCapture(db, captured, d);
    SameRow(db.captures, CaptureKey, c, d);
    CaptureCounts(db, c);
    assert LiveRefunds(db, c.org, c.payment) <= CapturedAmount(db, c.org, c.payment);
  }
}
