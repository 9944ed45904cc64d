/**
 What the capture-command guard of migrations 0022 and 0023 keeps over whole runs: no capture is ever
 written above the authorization it names, or without one that succeeded.
 */
module AuthorizedCaptures {
  import opened Database
  import opened RefundExactness

  /** Every capture row is an old one or was queued for the capture-command check in its present form. */
  lemma {:induction false} CapturesAreTracked(w: Work, ss: seq<Statement>)
    requires ExecAll(w, ss).Some?
    ensures var v := ExecAll(w, ss).value;
            forall c :: c in v.db.captures ==>
              c in w.db.captures || exists inserted :: CaptureWritten(c, inserted) in v.events
  {
    if ss != [] {
      hide Valid;
      var u := ExecAll(w, ss[..|ss| - 1]).value;
      var v := ExecAll(w, ss).value;
      CapturesAreTracked(w, ss[..|ss| - 1]);
      CapturesTrackedByOne(u, ss[|ss| - 1]);
      forall c | c in v.db.captures && c !in w.db.captures
        ensures exists inserted :: CaptureWritten(c, inserted) in v.events
      {
        if c in u.db.captures {
          var inserted :| CaptureWritten(c, inserted) in u.events;
          assert CaptureWritten(c, inserted) in v.events;
        }
      }
    }
  }

  lemma CapturesTrackedByOne(w: Work, s: Statement)
    requires Apply(w, s).Some?
    ensures var v := Apply(w, s).value;
            && w.events <= v.events
            && forall c :: c in v.db.captures ==>
                 c in w.db.captures || exists inserted :: CaptureWritten(c, inserted) in v.events
  {
    var v := Apply(w, s).value;
    if s.OnCaptures? {
      forall c | c in v.db.captures && c !in w.db.captures
        ensures exists inserted :: CaptureWritten(c, inserted) in v.events
      {
        assert CaptureWritten(c, s.capture.Insert?) in v.events;
      }
    }
  }

  /** A capture row that a commit wrote is within its authorization, which has succeeded. */
  lemma WrittenWithinAuthorization(db: Tables, tx: Transaction, c: CaptureRow)
    requires Valid(db) && Commits(db, tx) && c in Committed(db, tx).captures && c !in db.captures
    ensures exists a :: a in Committed(db, tx).authorizations && a.id == c.authorization && a.org == c.org
                        && a.env == c.env && a.status == Succeeded && c.amount <= a.amount
  {
    var w := ExecAll(Work(db, []), tx).value;
    CapturesAreTracked(Work(db, []), tx);
    ExecAllValid(Work(db, []), tx);
    var inserted :| CaptureWritten(c, inserted) in w.events;
    assert !Rejects(w.db, CaptureWritten(c, inserted));
    HeldByAuthorization(w.db, c);
    hide Valid;
    GuardAsks(w.db, c, inserted);
  }

  lemma HeldByAuthorization(db: Tables, c: CaptureRow)
    requires Valid(db) && c in db.captures
    ensures HasAuthorization(db.authorizations, c.authorization, c.org, c.env)
  {
    assert CaptureLinked(db, c);
  }

  /** The capture was written by the k-th transaction, within an authorization that had succeeded by then. */
  ghost predicate WrittenAt(txs: seq<Transaction>, k: nat, c: CaptureRow)
    requires 0 < k <= |txs|
  {
    && c !in Run(EMPTY, txs[..k - 1]).captures && c in Run(EMPTY, txs[..k]).captures
    && exists a :: a in Run(EMPTY, txs[..k]).authorizations && a.id == c.authorization && a.org == c.org
                   && a.env == c.env && a.status == Succeeded && c.amount <= a.amount
  }

  /** Over every run, whatever the writers: each capture row that stands was written within its authorization. */
  lemma {:induction false} EveryCaptureWasAuthorized(txs: seq<Transaction>, c: CaptureRow)
    requires c in Run(EMPTY, txs).captures
    ensures exists k :: 0 < k <= |txs| && WrittenAt(txs, k, c)
  {
    hide Valid, Commits;
    var n := |txs|;
    var before := Run(EMPTY, txs[..n - 1]);
    assert txs[..n] == txs;
    if c in before.captures {
      EveryCaptureWasAuthorized(txs[..n - 1], c);
      var k :| 0 < k <= n - 1 && WrittenAt(txs[..n - 1], k, c);
      assert txs[..n - 1][..k] == txs[..k] && txs[..n - 1][..k - 1] == txs[..k - 1];
      assert WrittenAt(txs, k, c);
    } else {
      RunValid(txs[..n - 1]);
      assert Commits(before, txs[n - 1]) by { OnlyCommitsWrite(before, txs[n - 1], c); }
      WrittenWithinAuthorization(before, txs[n - 1], c);
      assert WrittenAt(txs, n, c);
    }
  }

  lemma OnlyCommitsWrite(db: Tables, tx: Transaction, c: CaptureRow)
    requires c in Committed(db, tx).captures && c !in db.captures
    ensures Commits(db, tx)
  {
  }

  /** Authorizations stay with the amount they were made for. */
  ghost predicate HoldsKept(before: Tables, after: Tables) {
    forall a :: a in before.authorizations ==>
      exists b :: b in after.authorizations && b.id == a.id && b.org == a.org && b.amount == a.amount
  }

  /** So while authorizations keep their amounts, every capture is within its authorization in every state. */
  lemma {:induction false} CapturesStayAuthorized(txs: seq<Transaction>, c: CaptureRow)
    requires forall k :: 0 < k <= |txs| ==> HoldsKept(Run(EMPTY, txs[..k - 1]), Run(EMPTY, txs[..k]))
    requires c in Run(EMPTY, txs).captures
    ensures exists a :: a in Run(EMPTY, txs).authorizations && a.id == c.authorization && a.org == c.org
                        && c.amount <= a.amount
  {
    hide Valid, Commits;
    var n := |txs|;
    var front, before := txs[..n - 1], Run(EMPTY, txs[..n - 1]);
    assert txs[..n] == txs;
    if c in before.captures {
      forall k | 0 < k <= |front| ensures HoldsKept(Run(EMPTY, front[..k - 1]), Run(EMPTY, front[..k])) {
        assert front[..k] == txs[..k] && front[..k - 1] == txs[..k - 1];
      }
      CapturesStayAuthorized(front, c);
      assert HoldsKept(before, Run(EMPTY, txs));
    } else {
      RunValid(front);
      OnlyCommitsWrite(before, txs[n - 1], c);
      WrittenWithinAuthorization(before, txs[n - 1], c);
    }
  }
}
