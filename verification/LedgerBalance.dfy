/**
 Double entry over whole runs. The deferred balance trigger only looks at the journals a transaction
 touched; immutability of both tables and the foreign key from postings to journals turn that into a
 property of every journal, and of the whole ledger, in every committed state.
 */
module LedgerBalance {
  import opened Sums
  import opened Basics
  import opened Rows
  import opened Database

  ghost predicate Balanced(db: Tables, journal: Id) {
    && 2 <= Sum(db.postings, CountOf(journal))
    && Sum(db.postings, DebitOf(journal)) == Sum(db.postings, CreditOf(journal))
  }

  ghost predicate OneCurrency(db: Tables, j: Journal) {
    forall p :: p in db.postings && p.journal == j.id ==> p.currency == j.currency
  }

  ghost predicate AllBalanced(db: Tables) {
    forall j :: j in db.journals ==> Balanced(db, j.id) && OneCurrency(db, j)
  }

  /** A journal that the transaction did not touch keeps its postings, hence its balance. */
  lemma UntouchedStaysBalanced(before: Tables, after: Tables, journal: Id)
    requires before.postings <= after.postings
    requires Balanced(before, journal)
    requires forall i :: |before.postings| <= i < |after.postings| ==> after.postings[i].journal != journal
    ensures Balanced(after, journal)
  {
    SumUnchanged(before.postings, after.postings, CountOf(journal));
    SumUnchanged(before.postings, after.postings, DebitOf(journal));
    SumUnchanged(before.postings, after.postings, CreditOf(journal));
  }

  /** The deferred checks of the touched journals and the history of the others balance every journal. */
  lemma AcceptedJournalBalances(db: Tables, w: Work, j: Journal)
    requires AllBalanced(db) && Grown(Work(db, []), w) && j in w.db.journals
    requires forall e :: e in w.events ==> !Rejects(w.db, e)
    ensures Balanced(w.db, j.id)
  {
    if i :| |db.postings| <= i < |w.db.postings| && w.db.postings[i].journal == j.id {
      assert PostingInserted(w.db.postings[i]) in w.events;
    } else if j in db.journals {
      UntouchedStaysBalanced(db, w.db, j.id);
    } else {
      var i :| 0 <= i < |w.db.journals| && w.db.journals[i] == j;
      assert JournalInserted(w.db.journals[i]) in w.events;
    }
  }

  lemma CommitKeepsBalance(db: Tables, tx: Transaction)
    requires Valid(db) && AllBalanced(db) && Commits(db, tx)
    ensures AllBalanced(Committed(db, tx))
  {
    var w := ExecAll(Work(db, []), tx).value;
    ExecAllGrows(Work(db, []), tx);
    ExecAllValid(Work(db, []), tx);
    forall j | j in w.db.journals ensures Balanced(w.db, j.id) && OneCurrency(w.db, j) {
      AcceptedJournalBalances(db, w, j);
      CurrencyFollowsKey(w.db, j);
    }
  }

  /** In every committed state reachable by any sequence of transactions, every journal balances. */
  lemma {:induction false} EveryJournalBalances(txs: seq<Transaction>)
    ensures AllBalanced(Run(EMPTY, txs))
  {
    if txs != [] {
      var before := Run(EMPTY, txs[..|txs| - 1]);
      EveryJournalBalances(txs[..|txs| - 1]);
      RunValid(txs[..|txs| - 1]);
      if Commits(before, txs[|txs| - 1]) {
        CommitKeepsBalance(before, txs[|txs| - 1]);
      }
    }
  }

  lemma CurrencyFollowsKey(db: Tables, j: Journal)
    requires JournalsValid(db) && PostingsValid(db) && j in db.journals
    ensures OneCurrency(db, j)
  {
    forall p | p in db.postings && p.journal == j.id ensures p.currency == j.currency {
      PostingScope(db, p, j);
    }
  }

  /** Every posting has the currency, organisation and environment of its journal. */
  lemma {:induction false} EveryPostingMatchesItsJournal(txs: seq<Transaction>)
    ensures var db := Run(EMPTY, txs);
            forall p, j :: p in db.postings && j in db.journals && p.journal == j.id
                           ==> p.currency == j.currency && p.org == j.org && p.env == j.env
  {
    RunValid(txs);
    var db := Run(EMPTY, txs);
    forall p, j | p in db.postings && j in db.journals && p.journal == j.id
      ensures p.currency == j.currency && p.org == j.org && p.env == j.env
    {
      PostingScope(db, p, j);
    }
  }

  lemma PostingScope(db: Tables, p: Posting, j: Journal)
    requires JournalsValid(db) && PostingsValid(db)
    requires p in db.postings && j in db.journals && p.journal == j.id
    ensures p.currency == j.currency && p.org == j.org && p.env == j.env
  {
    assert HasJournal(db.journals, p.journal, p.org, p.env);
    var k :| k in db.journals && k.id == p.journal && k.org == p.org && k.env == p.env;
    SameRow(db.journals, JournalKey, j, k);
  }

  // --- the whole ledger ------------------------------------------------------------------------

  /** The whole ledger, or one organisation and environment of it. */
  datatype Scope = Everywhere | Only(org: Id, env: Id)

  predicate Within(s: Scope, org: Id, env: Id) {
    s.Everywhere? || (s.org == org && s.env == env)
  }

  /** Debits less credits of one posting, counted only within the scope. */
  function Net(s: Scope, p: Posting): int {
    if !Within(s, p.org, p.env) then 0 else if p.side.Debit? then p.amount else -p.amount
  }

  function NetIn(s: Scope): Posting -> int {
    (p: Posting) => Net(s, p)
  }

  /** The share of a posting in a journal: all of it or nothing. */
  function Share(s: Scope, p: Posting, j: Journal): int {
    if p.journal == j.id then Net(s, p) else 0
  }

  function ShareIn(s: Scope): (Posting, Journal) -> int {
    (p: Posting, j: Journal) => Share(s, p, j)
  }

  lemma PostingIsInOneJournal(db: Tables, s: Scope, p: Posting)
    requires JournalsValid(db) && PostingsValid(db) && p in db.postings
    ensures Across(db.journals, ShareIn(s))(p) == Net(s, p)
  {
    assert HasJournal(db.journals, p.journal, p.org, p.env);
    var i :| 0 <= i < |db.journals| && db.journals[i].id == p.journal;
    var f := (j: Journal) => Share(s, p, j);
    forall k | 0 <= k < |db.journals| && k != i ensures f(db.journals[k]) == 0 {
      assert JournalKey(db.journals[k]) != JournalKey(db.journals[i]);
    }
    SumExactlyOne(db.journals, i, f);
    AcrossAt(db.journals, ShareIn(s), p, f);
  }

  lemma JournalNetsToZero(db: Tables, s: Scope, j: Journal)
    requires JournalsValid(db) && PostingsValid(db) && j in db.journals && Balanced(db, j.id)
    ensures Down(db.postings, ShareIn(s))(j) == 0
  {
    var share := (p: Posting) => Share(s, p, j);
    forall p | p in db.postings && p.journal == j.id ensures p.org == j.org && p.env == j.env {
      PostingScope(db, p, j);
    }
    if Within(s, j.org, j.env) {
      SumPlus(db.postings, share, CreditOf(j.id), DebitOf(j.id));
    } else {
      SumZero(db.postings, share);
    }
    DownAt(db.postings, ShareIn(s), j, share);
  }

  lemma BalancedJournalsBalanceTheLedger(db: Tables, s: Scope)
    requires JournalsValid(db) && PostingsValid(db) && AllBalanced(db)
    ensures Sum(db.postings, NetIn(s)) == 0
  {
    var share := ShareIn(s);
    forall p | p in db.postings ensures Across(db.journals, share)(p) == NetIn(s)(p) {
      PostingIsInOneJournal(db, s, p);
    }
    SumEqual(db.postings, Across(db.journals, share), NetIn(s));
    SumSwap(db.postings, db.journals, share);
    forall j | j in db.journals ensures Down(db.postings, share)(j) == 0 {
      JournalNetsToZero(db, s, j);
    }
    SumZero(db.journals, Down(db.postings, share));
  }

  /** Money is conserved: after any run, debits equal credits in the whole ledger and in every scope. */
  lemma LedgerEquation(txs: seq<Transaction>, s: Scope)
    ensures Sum(Run(EMPTY, txs).postings, NetIn(s)) == 0
  {
    RunValid(txs);
    EveryJournalBalances(txs);
    BalancedJournalsBalanceTheLedger(Run(EMPTY, txs), s);
  }

  /** History is append-only: a committed journal or posting is in every later committed state, unchanged. */
  lemma {:induction false} HistoryIsKept(db: Tables, txs: seq<Transaction>)
    ensures db.journals <= Run(db, txs).journals
    ensures db.postings <= Run(db, txs).postings
  {
    if txs != [] {
      var before := Run(db, txs[..|txs| - 1]);
      HistoryIsKept(db, txs[..|txs| - 1]);
      if Commits(before, txs[|txs| - 1]) {
        ExecAllGrows(Work(before, []), txs[|txs| - 1]);
      }
    }
  }
}
