/**
 The data part of migration 0009: every environment gets a default merchant with its ledger
 accounts, and each positive legacy payable position is moved to the merchant's pending account by
 one OPENING journal. Each INSERT ... SELECT is the query it is, joins included; that every join
 matches once is proved from the constraints. The md5-derived row ids are parameters, assumed free of
 collisions.
 */
module OpeningMigration {
  import opened Basics
  import opened Rows
  import opened Sums
  import opened Queries
  import opened Database

  datatype Environment = Environment(id: Id, org: Id)

  /** The ids the migration derives with md5 from the rows it starts from. */
  datatype Names = Names(
    merchant: Id -> Id,
    account: (Id, AccountCode) -> Id,
    journal: Id -> Id,
    posting: (Id, Side) -> Id)

  datatype BalanceTransaction = BalanceTransaction(org: Id, env: Id, merchant: Option<Id>, journal: Id,
                                                   pendingDelta: int)

  // --- merchants and their accounts ------------------------------------------------------------

  function DefaultMerchant(names: Names, e: Environment): Merchant {
    Merchant(names.merchant(e.id), e.org, e.id)
  }

  function DefaultMerchants(names: Names, envs: seq<Environment>): seq<Merchant> {
    seq(|envs|, i requires 0 <= i < |envs| => DefaultMerchant(names, envs[i]))
  }

  const TEMPLATES: seq<AccountCode> := [PendingPayable, AvailablePayable, PayoutClearing, MerchantReceivable]

  function TemplateAccount(names: Names, m: Merchant, code: AccountCode): Account {
    Account(names.account(m.id, code), m.org, m.env, Some(m.id), code)
  }

  function TemplatesOf(names: Names): Merchant -> seq<Account> {
    (m: Merchant) => FlatMap(TEMPLATES, (code: AccountCode) => [TemplateAccount(names, m, code)])
  }

  /** `merchant_accounts CROSS JOIN template` */
  function TemplateAccounts(names: Names, ms: seq<Merchant>): seq<Account> {
    FlatMap(ms, TemplatesOf(names))
  }

  // --- WITH legacy_positions -------------------------------------------------------------------

  datatype Line = Line(org: Id, env: Id, amount: int)
  datatype Total = Total(org: Id, env: Id, amount: int)

  function Signed(p: Posting): int {
    if p.side.Credit? then p.amount else -p.amount
  }

  predicate IsLegacy(a: Account) {
    a.code.LegacyPayable? && a.merchant.None?
  }

  function PostedTo(a: Account): Posting -> bool {
    (p: Posting) => p.account == a.id
  }

  function LineOf(a: Account): Posting -> seq<Line> {
    (p: Posting) => [Line(a.org, a.env, Signed(p))]
  }

  function LinesOf(postings: seq<Posting>): Account -> seq<Line> {
    (a: Account) => if IsLegacy(a) then Joined(postings, PostedTo(a), LineOf(a)) else []
  }

  /** `FROM ledger_accounts a JOIN postings p ... WHERE` the account is the legacy one. */
  function LegacyLines(accounts: seq<Account>, postings: seq<Posting>): seq<Line> {
    FlatMap(accounts, LinesOf(postings))
  }

  /** The groups of `GROUP BY organisation_id, environment_id`. */
  function ScopesOf(lines: seq<Line>): (scopes: seq<(Id, Id)>)
    ensures forall l :: l in lines ==> (l.org, l.env) in scopes
    ensures forall i, j :: 0 <= i < j < |scopes| ==> scopes[i] != scopes[j]
  {
    if lines == [] then [] else
    var scopes, last := ScopesOf(lines[..|lines| - 1]), lines[|lines| - 1];
    if (last.org, last.env) in scopes then scopes else scopes + [(last.org, last.env)]
  }

  function AmountIn(org: Id, env: Id): Line -> int {
    (l: Line) => if l.org == org && l.env == env then l.amount else 0
  }

  /** `SELECT ..., sum(...) ... HAVING sum(...) > 0` for one group. */
  function GroupOf(lines: seq<Line>): ((Id, Id)) -> seq<Total> {
    (s: (Id, Id)) =>
      var amount := Sum(lines, AmountIn(s.0, s.1));
      if amount > 0 then [Total(s.0, s.1, amount)] else []
  }

  function LegacyTotals(accounts: seq<Account>, postings: seq<Posting>): seq<Total> {
    var lines := LegacyLines(accounts, postings);
    FlatMap(ScopesOf(lines), GroupOf(lines))
  }

  function InScope(org: Id, env: Id): Total -> bool {
    (t: Total) => t.org == org && t.env == env
  }

  // --- opening journals, postings and balance transactions -------------------------------------

  function OpeningJournal(names: Names, m: Merchant): Journal {
    Journal(names.journal(m.id), m.org, m.env, Some(m.id), None, Opening, m.id, Inr)
  }

  function OpeningFor(names: Names, m: Merchant): Total -> seq<Journal> {
    (t: Total) => [OpeningJournal(names, m)]
  }

  function OpeningsFor(names: Names, totals: seq<Total>): Merchant -> seq<Journal> {
    (m: Merchant) => Joined(totals, InScope(m.org, m.env), OpeningFor(names, m))
  }

  /** `merchant_accounts m JOIN legacy_positions l`, every merchant being an active default one. */
  function OpeningJournals(names: Names, ms: seq<Merchant>, totals: seq<Total>): seq<Journal> {
    FlatMap(ms, OpeningsFor(names, totals))
  }

  function OpeningPosting(names: Names, o: Journal, account: Id, side: Side, amount: int): Posting {
    Posting(names.posting(o.id, side), o.org, o.env, o.id, account, side, amount, Inr)
  }

  /** The legacy account of the journal's scope. */
  function LegacyOf(o: Journal): Account -> bool {
    (a: Account) => HoldsSlot(a, o.org, o.env, None, LegacyPayable)
  }

  /** The pending account of the journal's merchant, in whatever scope. */
  function PendingOf(o: Journal): Account -> bool {
    (a: Account) => a.merchant.Some? && a.merchant == o.merchant && a.code.PendingPayable?
  }

  /** `CROSS JOIN (VALUES ('DEBIT'), ('CREDIT'))` */
  function ForPending(names: Names, o: Journal, t: Total, legacy: Account): Account -> seq<Posting> {
    (pending: Account) =>
      [OpeningPosting(names, o, legacy.id, Debit, t.amount), OpeningPosting(names, o, pending.id, Credit, t.amount)]
  }

  function ForLegacy(names: Names, accounts: seq<Account>, o: Journal, t: Total): Account -> seq<Posting> {
    (legacy: Account) => Joined(accounts, PendingOf(o), ForPending(names, o, t, legacy))
  }

  function ForTotal(names: Names, accounts: seq<Account>, o: Journal): Total -> seq<Posting> {
    (t: Total) => Joined(accounts, LegacyOf(o), ForLegacy(names, accounts, o, t))
  }

  function PostingsOf(names: Names, totals: seq<Total>, accounts: seq<Account>): Journal -> seq<Posting> {
    (o: Journal) => Joined(totals, InScope(o.org, o.env), ForTotal(names, accounts, o))
  }

  /** `opening o JOIN legacy_positions JOIN legacy JOIN pending CROSS JOIN side` */
  function OpeningPostings(names: Names, opening: seq<Journal>, totals: seq<Total>,
                           accounts: seq<Account>): seq<Posting> {
    FlatMap(opening, PostingsOf(names, totals, accounts))
  }

  function CreditOfJournal(j: Journal): Posting -> bool {
    (p: Posting) => p.journal == j.id && p.side.Credit?
  }

  function PendingAccount(p: Posting): Account -> bool {
    (a: Account) => a.id == p.account && a.code.PendingPayable?
  }

  function ForAccount(j: Journal, p: Posting): Account -> seq<BalanceTransaction> {
    (a: Account) => [BalanceTransaction(j.org, j.env, j.merchant, j.id, p.amount)]
  }

  function ForCredit(accounts: seq<Account>, j: Journal): Posting -> seq<BalanceTransaction> {
    (p: Posting) => Joined(accounts, PendingAccount(p), ForAccount(j, p))
  }

  function BalancesOf(postings: seq<Posting>, accounts: seq<Account>): Journal -> seq<BalanceTransaction> {
    (j: Journal) => if j.kind.Opening? then Joined(postings, CreditOfJournal(j), ForCredit(accounts, j)) else []
  }

  /** `journals j JOIN postings p JOIN ledger_accounts a WHERE` j is OPENING and a is a pending account. */
  function BalanceTransactions(db: Tables): seq<BalanceTransaction> {
    FlatMap(db.journals, BalancesOf(db.postings, db.accounts))
  }

  // --- the statements in order -----------------------------------------------------------------

  function WithMerchants(names: Names, db: Tables, envs: seq<Environment>): Tables {
    db.(merchants := DefaultMerchants(names, envs))
  }

  function WithAccounts(names: Names, db: Tables): Tables {
    db.(accounts := db.accounts + TemplateAccounts(names, db.merchants))
  }

  /** The one statement that opens: all of its parts see the tables from before it. */
  function WithOpenings(names: Names, db: Tables): Tables {
    var totals := LegacyTotals(db.accounts, db.postings);
    var opening := OpeningJournals(names, db.merchants, totals);
    db.(journals := db.journals + opening,
        postings := db.postings + OpeningPostings(names, opening, totals, db.accounts))
  }

  function Upgraded(names: Names, db: Tables, envs: seq<Environment>): Tables {
    WithOpenings(names, WithAccounts(names, WithMerchants(names, db, envs)))
  }

  // --- the ledger the migration starts from ----------------------------------------------------

  ghost predicate Legacy(db: Tables, envs: seq<Environment>) {
    && Valid(db)
    && db.merchants == []
    && (forall i, j :: 0 <= i < j < |envs| ==> envs[i].id != envs[j].id)
    && (forall j :: j in db.journals ==> !j.kind.Opening?)
  }

  /** No md5 collision, with each other or with existing rows. */
  ghost predicate Fresh(names: Names, db: Tables) {
    && (forall a, b :: names.merchant(a) == names.merchant(b) ==> a == b)
    && (forall a, b :: names.journal(a) == names.journal(b) ==> a == b)
    && (forall a, b, c, d :: names.account(a, c) == names.account(b, d) ==> a == b && c == d)
    && (forall a, b, c, d :: names.posting(a, c) == names.posting(b, d) ==> a == b && c == d)
    && (forall x, m, c :: x in db.accounts ==> x.id != names.account(m, c))
    && (forall x, m :: x in db.journals ==> x.id != names.journal(m))
    && (forall x, j, c :: x in db.postings ==> x.id != names.posting(j, c))
    && (forall r, e :: r in db.refunds ==> r.id != names.merchant(e))
  }

  lemma LegacyLedger(db: Tables, envs: seq<Environment>)
    requires Legacy(db, envs)
    ensures AccountsValid(db) && JournalsValid(db) && PostingsValid(db) && db.merchants == []
    ensures forall j :: j in db.journals ==> !j.kind.Opening?
  {
  }

  lemma FreshJournals(names: Names, db: Tables)
    requires Fresh(names, db)
    ensures forall a, b :: names.journal(a) == names.journal(b) ==> a == b
    ensures forall x, m :: x in db.journals ==> x.id != names.journal(m)
  {
  }

  lemma FreshPostings(names: Names, db: Tables)
    requires Fresh(names, db)
    ensures forall a, b, c, d :: names.posting(a, c) == names.posting(b, d) ==> a == b && c == d
    ensures forall x, j, c :: x in db.postings ==> x.id != names.posting(j, c)
  {
  }

  // --- the legacy positions, without the query -------------------------------------------------

  /** A balance: credits less debits on one account. */
  function SignedOn(account: Id): Posting -> int {
    (p: Posting) => if p.account != account then 0 else Signed(p)
  }

  function Balance(postings: seq<Posting>, account: Id): int {
    Sum(postings, SignedOn(account))
  }

  function LegacyAccount(accounts: seq<Account>, org: Id, env: Id): Option<Account> {
    AccountFor(accounts, org, env, None, LegacyPayable)
  }

  /** The balance of the scope's legacy payable account. */
  function LegacyPosition(accounts: seq<Account>, postings: seq<Posting>, org: Id, env: Id): int {
    var a := LegacyAccount(accounts, org, env);
    if a.None? then 0 else Balance(postings, a.value.id)
  }

  ghost predicate OneSlot(accounts: seq<Account>) {
    && Unique(accounts, AccountKey)
    && forall a, b | a in accounts && b in accounts && SameCodeSlot(a, b) :: a == b
  }

  /** What one posting adds to a scope through one account. */
  function ShareOf(a: Account, org: Id, env: Id): Posting -> int {
    (p: Posting) => if p.account == a.id && a.org == org && a.env == env then Signed(p) else 0
  }

  lemma LineTotal(a: Account, p: Posting, org: Id, env: Id)
    ensures ShareOf(a, org, env)(p) == if PostedTo(a)(p) then Sum(LineOf(a)(p), AmountIn(org, env)) else 0
  {
    SumOne(Line(a.org, a.env, Signed(p)), AmountIn(org, env));
  }

  lemma LinesTotal(postings: seq<Posting>, a: Account, org: Id, env: Id)
    ensures Sum(LinesOf(postings)(a), AmountIn(org, env))
         == if HoldsSlot(a, org, env, None, LegacyPayable) then Balance(postings, a.id) else 0
  {
    if IsLegacy(a) {
      forall p | p in postings
        ensures ShareOf(a, org, env)(p) == if PostedTo(a)(p) then Sum(LineOf(a)(p), AmountIn(org, env)) else 0
      {
        LineTotal(a, p, org, env);
      }
      JoinedSum(postings, PostedTo(a), LineOf(a), AmountIn(org, env), ShareOf(a, org, env));
      if a.org == org && a.env == env {
        SumEqual(postings, ShareOf(a, org, env), SignedOn(a.id));
      } else {
        SumZero(postings, ShareOf(a, org, env));
      }
    }
  }

  /** A group's sum is the balance of the scope's one legacy account. */
  lemma GroupTotal(accounts: seq<Account>, postings: seq<Posting>, org: Id, env: Id)
    requires OneSlot(accounts)
    ensures Sum(LegacyLines(accounts, postings), AmountIn(org, env)) == LegacyPosition(accounts, postings, org, env)
  {
    var h := (a: Account) => if HoldsSlot(a, org, env, None, LegacyPayable) then Balance(postings, a.id) else 0;
    forall a | a in accounts ensures h(a) == Sum(LinesOf(postings)(a), AmountIn(org, env)) {
      LinesTotal(postings, a, org, env);
    }
    FlatMapSum(accounts, LinesOf(postings), AmountIn(org, env), h);
    var found := LegacyAccount(accounts, org, env);
    if found.None? {
      SumZero(accounts, h);
    } else {
      var i :| 0 <= i < |accounts| && accounts[i] == found.value;
      forall k | 0 <= k < |accounts| && k != i ensures h(accounts[k]) == 0 {
        assert AccountKey(accounts[k]) != AccountKey(accounts[i]);
        if HoldsSlot(accounts[k], org, env, None, LegacyPayable) {
          assert SameCodeSlot(accounts[k], accounts[i]);
        }
      }
      SumExactlyOne(accounts, i, h);
    }
  }

  /** `legacy_positions` holds, for every scope, one row with its legacy position if that is positive. */
  lemma TotalsJoinOnce<B>(accounts: seq<Account>, postings: seq<Posting>, org: Id, env: Id, out: Total -> seq<B>)
    requires OneSlot(accounts)
    ensures var amount := LegacyPosition(accounts, postings, org, env);
            Joined(LegacyTotals(accounts, postings), InScope(org, env), out)
            == if amount > 0 then out(Total(org, env, amount)) else []
  {
    var lines := LegacyLines(accounts, postings);
    GroupTotal(accounts, postings, org, env);
    GroupsJoinOnce(lines, org, env, out);
  }

  function HereOnly<B>(org: Id, env: Id, here: seq<B>): ((Id, Id)) -> seq<B> {
    (s: (Id, Id)) => if s == (org, env) then here else []
  }

  lemma GroupsJoinOnce<B>(lines: seq<Line>, org: Id, env: Id, out: Total -> seq<B>)
    ensures var amount := Sum(lines, AmountIn(org, env));
            Joined(FlatMap(ScopesOf(lines), GroupOf(lines)), InScope(org, env), out)
            == if amount > 0 then out(Total(org, env, amount)) else []
  {
    var amount := Sum(lines, AmountIn(org, env));
    var here: seq<B> := if amount > 0 then out(Total(org, env, amount)) else [];
    forall s | s in ScopesOf(lines)
      ensures HereOnly(org, env, here)(s) == Joined(GroupOf(lines)(s), InScope(org, env), out)
    {
      GroupJoins(lines, s, org, env, out);
    }
    JoinedFlatMap(ScopesOf(lines), GroupOf(lines), InScope(org, env), out, HereOnly(org, env, here));
    ScopeOnce(lines, org, env, here);
  }

  lemma ScopeOnce<B>(lines: seq<Line>, org: Id, env: Id, here: seq<B>)
    requires Sum(lines, AmountIn(org, env)) <= 0 ==> here == []
    ensures FlatMap(ScopesOf(lines), HereOnly(org, env, here)) == here
  {
    var scopes := ScopesOf(lines);
    if (org, env) in scopes {
      var i :| 0 <= i < |scopes| && scopes[i] == (org, env);
      FlatMapOne(scopes, i, HereOnly(org, env, here));
    } else {
      SumZero(lines, AmountIn(org, env));
      FlatMapNone(scopes, HereOnly(org, env, here));
    }
  }

  lemma GroupJoins<B>(lines: seq<Line>, s: (Id, Id), org: Id, env: Id, out: Total -> seq<B>)
    ensures var amount := Sum(lines, AmountIn(org, env));
            Joined(GroupOf(lines)(s), InScope(org, env), out)
            == if s == (org, env) && amount > 0 then out(Total(org, env, amount)) else []
  {
    var amount := Sum(lines, AmountIn(s.0, s.1));
    if amount > 0 {
      assert GroupOf(lines)(s) == [Total(s.0, s.1, amount)];
      JoinedSingle(Total(s.0, s.1, amount), InScope(org, env), out);
    } else {
      JoinedNever(GroupOf(lines)(s), InScope(org, env), out);
    }
  }

  // --- the inserted merchants and accounts -----------------------------------------------------

  /** The tables when the opening statement runs. */
  function Prepared(names: Names, db: Tables, envs: seq<Environment>): Tables {
    WithAccounts(names, WithMerchants(names, db, envs))
  }

  lemma MerchantsDiffer(names: Names, db: Tables, envs: seq<Environment>, i: nat, j: nat)
    requires Legacy(db, envs) && Fresh(names, db) && i < |envs| && j < |envs| && i != j
    ensures var ms := DefaultMerchants(names, envs); ms[i].id != ms[j].id && ms[i].env != ms[j].env
  {
    var ms := DefaultMerchants(names, envs);
    assert ms[i] == DefaultMerchant(names, envs[i]) && ms[j] == DefaultMerchant(names, envs[j]);
  }

  lemma MerchantIdsUnique(names: Names, db: Tables, envs: seq<Environment>)
    requires Legacy(db, envs) && Fresh(names, db)
    ensures Unique(DefaultMerchants(names, envs), MerchantKey)
  {
    hide Legacy, Fresh;
    var ms := DefaultMerchants(names, envs);
    forall i, j | 0 <= i < j < |ms| ensures MerchantKey(ms[i]) != MerchantKey(ms[j]) {
      MerchantsDiffer(names, db, envs, i, j);
    }
  }

  lemma TemplatesOfExact(names: Names, m: Merchant)
    ensures TemplatesOf(names)(m)
         == [TemplateAccount(names, m, PendingPayable), TemplateAccount(names, m, AvailablePayable),
             TemplateAccount(names, m, PayoutClearing), TemplateAccount(names, m, MerchantReceivable)]
  {
    var f := (code: AccountCode) => [TemplateAccount(names, m, code)];
    assert TEMPLATES[..3] == [PendingPayable, AvailablePayable, PayoutClearing];
    assert TEMPLATES[..3][..2] == [PendingPayable, AvailablePayable] && TEMPLATES[..3][..2][..1] == [PendingPayable];
    FlatMapSingle(PendingPayable, f);
    assert FlatMap(TEMPLATES[..3][..2], f)
           == [TemplateAccount(names, m, PendingPayable), TemplateAccount(names, m, AvailablePayable)];
    assert FlatMap(TEMPLATES[..3], f) == FlatMap(TEMPLATES[..3][..2], f) + [TemplateAccount(names, m, PayoutClearing)];
  }

  /** Each default merchant gets each template account, and nothing else is inserted. */
  lemma TemplatesExact(names: Names, ms: seq<Merchant>, a: Account)
    ensures a in TemplateAccounts(names, ms) <==>
            exists m, code :: m in ms && code in TEMPLATES && a == TemplateAccount(names, m, code)
  {
    FlatMapMembers(ms, TemplatesOf(names), a);
    if a in TemplateAccounts(names, ms) {
      var m :| m in ms && a in TemplatesOf(names)(m);
      TemplatesOfExact(names, m);
      assert a == TemplateAccount(names, m, a.code) && a.code in TEMPLATES;
    }
    if m, code :| m in ms && code in TEMPLATES && a == TemplateAccount(names, m, code) {
      TemplatesOfExact(names, m);
      assert a in TemplatesOf(names)(m);
    }
  }

  lemma {:induction false} TemplateCount(names: Names, ms: seq<Merchant>)
    ensures |TemplateAccounts(names, ms)| == 4 * |ms|
  {
    if ms != [] {
      TemplateCount(names, ms[..|ms| - 1]);
      TemplatesOfExact(names, ms[|ms| - 1]);
    }
  }

  /** Before the migration no account belongs to a merchant. */
  lemma LegacyAccountsAreGlobal(db: Tables, envs: seq<Environment>)
    requires Legacy(db, envs)
    ensures forall a :: a in db.accounts ==> a.merchant.None?
  {
    assert AccountsValid(db);
  }

  lemma TemplatesApart(names: Names, db: Tables, m: Merchant, n: Merchant)
    requires Fresh(names, db)
    ensures Unique(TemplatesOf(names)(m), AccountKey)
    ensures m.id != n.id ==> KeysApart(TemplatesOf(names)(m), TemplatesOf(names)(n), AccountKey)
  {
    hide Fresh, TemplatesOf;
    FreshAccounts(names, db);
    TemplatesOfExact(names, m);
    TemplatesOfExact(names, n);
  }

  lemma TemplateKeysUnique(names: Names, db: Tables, envs: seq<Environment>)
    requires Legacy(db, envs) && Fresh(names, db)
    ensures Unique(TemplateAccounts(names, DefaultMerchants(names, envs)), AccountKey)
  {
    hide Legacy, Fresh, TemplatesOf, KeysApart, FlatMap;
    var ms := DefaultMerchants(names, envs);
    forall m | m in ms ensures Unique(TemplatesOf(names)(m), AccountKey) {
      TemplatesApart(names, db, m, m);
    }
    forall i, j | 0 <= i < j < |ms|
      ensures KeysApart(TemplatesOf(names)(ms[i]), TemplatesOf(names)(ms[j]), AccountKey)
    {
      MerchantsDiffer(names, db, envs, i, j);
      TemplatesApart(names, db, ms[i], ms[j]);
    }
    UniqueFlatMap(ms, TemplatesOf(names), AccountKey);
  }

  lemma PreparedKeysUnique(names: Names, db: Tables, envs: seq<Environment>)
    requires Legacy(db, envs) && Fresh(names, db)
    ensures Unique(Prepared(names, db, envs).accounts, AccountKey)
  {
    var added := TemplateAccounts(names, DefaultMerchants(names, envs));
    TemplateKeysUnique(names, db, envs);
    forall x, y | x in db.accounts && y in added ensures AccountKey(x) != AccountKey(y) {
      TemplatesExact(names, DefaultMerchants(names, envs), y);
    }
    UniqueAppend(db.accounts, added, AccountKey);
  }

  lemma PreparedSlots(names: Names, db: Tables, envs: seq<Environment>, a: Account, b: Account)
    requires Legacy(db, envs) && Fresh(names, db)
    requires a in Prepared(names, db, envs).accounts && b in Prepared(names, db, envs).accounts && SameCodeSlot(a, b)
    ensures a == b
  {
    var ms := DefaultMerchants(names, envs);
    LegacyAccountsAreGlobal(db, envs);
    TemplatesExact(names, ms, a);
    TemplatesExact(names, ms, b);
    if a in db.accounts {
      assert b in db.accounts;
      assert AccountsValid(db);
    } else {
      var m, c :| m in ms && c in TEMPLATES && a == TemplateAccount(names, m, c);
      assert b !in db.accounts;
      var n, d :| n in ms && d in TEMPLATES && b == TemplateAccount(names, n, d);
    }
  }

  lemma PreparedAccountsValid(names: Names, db: Tables, envs: seq<Environment>)
    requires Legacy(db, envs) && Fresh(names, db)
    ensures AccountsValid(Prepared(names, db, envs)) && OneSlot(Prepared(names, db, envs).accounts)
  {
    var prepared := Prepared(names, db, envs);
    MerchantIdsUnique(names, db, envs);
    PreparedKeysUnique(names, db, envs);
    forall a, b | a in prepared.accounts && b in prepared.accounts && SameCodeSlot(a, b) ensures a == b {
      PreparedSlots(names, db, envs, a, b);
    }
    LegacyAccountsAreGlobal(db, envs);
    forall a | a in prepared.accounts && a.merchant.Some?
      ensures HasMerchant(prepared.merchants, a.merchant.value, a.org, a.env)
    {
      TemplatesExact(names, prepared.merchants, a);
    }
  }

  // --- what each join comes to -----------------------------------------------------------------

  /** The legacy position of a merchant's scope, before the migration. */
  function Owed(db: Tables, m: Merchant): int {
    LegacyPosition(db.accounts, db.postings, m.org, m.env)
  }

  predicate Opens(db: Tables, m: Merchant) {
    Owed(db, m) > 0
  }

  function OpeningOf(names: Names, db: Tables): Merchant -> seq<Journal> {
    (m: Merchant) => if Opens(db, m) then [OpeningJournal(names, m)] else []
  }

  /** What moves a merchant's legacy position to its pending account. */
  function Move(names: Names, db: Tables, m: Merchant, side: Side): Posting
    requires Opens(db, m)
  {
    OpeningPosting(names, OpeningJournal(names, m),
                   if side.Debit? then LegacyAccount(db.accounts, m.org, m.env).value.id
                   else names.account(m.id, PendingPayable),
                   side, Owed(db, m))
  }

  function PairOf(names: Names, db: Tables): Merchant -> seq<Posting> {
    (m: Merchant) => if Opens(db, m) then [Move(names, db, m, Debit), Move(names, db, m, Credit)] else []
  }

  function BalanceOf(names: Names, db: Tables): Merchant -> seq<BalanceTransaction> {
    (m: Merchant) =>
      if Opens(db, m) then [BalanceTransaction(m.org, m.env, Some(m.id), names.journal(m.id), Owed(db, m))] else []
  }

  /** The migration adds only merchant accounts, so a scope's legacy account is found as before. */
  lemma LegacyStands(names: Names, db: Tables, envs: seq<Environment>, org: Id, env: Id)
    requires Legacy(db, envs) && Fresh(names, db)
    ensures LegacyAccount(Prepared(names, db, envs).accounts, org, env) == LegacyAccount(db.accounts, org, env)
  {
    var all := Prepared(names, db, envs).accounts;
    var a, b := LegacyAccount(all, org, env), LegacyAccount(db.accounts, org, env);
    if a.Some? {
      TemplatesExact(names, DefaultMerchants(names, envs), a.value);
    }
    if b.Some? {
      assert b.value in all;
      PreparedSlots(names, db, envs, a.value, b.value);
    }
  }

  lemma OpeningJoinsOnce(names: Names, db: Tables, envs: seq<Environment>, m: Merchant)
    requires Legacy(db, envs) && Fresh(names, db)
    ensures var prepared := Prepared(names, db, envs);
            OpeningsFor(names, LegacyTotals(prepared.accounts, db.postings))(m) == OpeningOf(names, db)(m)
  {
    hide Legacy, Fresh, LegacyTotals;
    PreparedAccountsValid(names, db, envs);
    LegacyStands(names, db, envs, m.org, m.env);
    TotalsJoinOnce(Prepared(names, db, envs).accounts, db.postings, m.org, m.env, OpeningFor(names, m));
  }

  /** The pending account of a merchant is the template inserted for it, and the join finds no other. */
  lemma PendingJoinsOnce<B>(names: Names, db: Tables, envs: seq<Environment>, m: Merchant, out: Account -> seq<B>)
    requires Legacy(db, envs) && Fresh(names, db) && m in DefaultMerchants(names, envs)
    ensures Joined(Prepared(names, db, envs).accounts, PendingOf(OpeningJournal(names, m)), out)
         == out(TemplateAccount(names, m, PendingPayable))
  {
    var all, on := Prepared(names, db, envs).accounts, PendingOf(OpeningJournal(names, m));
    var pending := TemplateAccount(names, m, PendingPayable);
    TemplatesExact(names, DefaultMerchants(names, envs), pending);
    PreparedKeysUnique(names, db, envs);
    forall a | a in all && on(a) ensures a == pending {
      PendingIsTheTemplate(names, db, envs, m, a);
    }
    JoinedOnce(all, AccountKey, pending, on, out);
  }

  lemma PendingIsTheTemplate(names: Names, db: Tables, envs: seq<Environment>, m: Merchant, a: Account)
    requires Legacy(db, envs) && Fresh(names, db) && m in DefaultMerchants(names, envs)
    requires a in Prepared(names, db, envs).accounts && PendingOf(OpeningJournal(names, m))(a)
    ensures a == TemplateAccount(names, m, PendingPayable)
  {
    var ms := DefaultMerchants(names, envs);
    LegacyAccountsAreGlobal(db, envs);
    TemplatesExact(names, ms, a);
    var n, c :| n in ms && c in TEMPLATES && a == TemplateAccount(names, n, c);
    MerchantIdsUnique(names, db, envs);
    SameRow(ms, MerchantKey, m, n);
  }

  lemma LegacyJoinsOnce<B>(names: Names, db: Tables, envs: seq<Environment>, m: Merchant, out: Account -> seq<B>)
    requires Legacy(db, envs) && Fresh(names, db) && LegacyAccount(db.accounts, m.org, m.env).Some?
    ensures Joined(Prepared(names, db, envs).accounts, LegacyOf(OpeningJournal(names, m)), out)
         == out(LegacyAccount(db.accounts, m.org, m.env).value)
  {
    var all, on := Prepared(names, db, envs).accounts, LegacyOf(OpeningJournal(names, m));
    var legacy := LegacyAccount(db.accounts, m.org, m.env).value;
    PreparedKeysUnique(names, db, envs);
    forall a | a in all && on(a) ensures a == legacy {
      PreparedSlots(names, db, envs, a, legacy);
    }
    JoinedOnce(all, AccountKey, legacy, on, out);
  }

  lemma PostingsJoinOnce(names: Names, db: Tables, envs: seq<Environment>, m: Merchant)
    requires Legacy(db, envs) && Fresh(names, db) && m in DefaultMerchants(names, envs) && Opens(db, m)
    ensures var prepared := Prepared(names, db, envs);
            PostingsOf(names, LegacyTotals(prepared.accounts, db.postings), prepared.accounts)(OpeningJournal(names, m))
            == PairOf(names, db)(m)
  {
    hide Legacy, Fresh, LegacyTotals, Prepared, DefaultMerchants;
    var accounts, o := Prepared(names, db, envs).accounts, OpeningJournal(names, m);
    var t := Total(m.org, m.env, Owed(db, m));
    var legacy := LegacyAccount(db.accounts, m.org, m.env).value;
    PreparedAccountsValid(names, db, envs);
    LegacyStands(names, db, envs, m.org, m.env);
    TotalsJoinOnce(accounts, db.postings, m.org, m.env, ForTotal(names, accounts, o));
    LegacyJoinsOnce(names, db, envs, m, ForLegacy(names, accounts, o, t));
    PendingJoinsOnce(names, db, envs, m, ForPending(names, o, t, legacy));
  }

  /** The whole opening statement: per merchant, its journal and its pair of postings, or nothing. */
  lemma UpgradedExactly(names: Names, db: Tables, envs: seq<Environment>)
    requires Legacy(db, envs) && Fresh(names, db)
    ensures var ms := DefaultMerchants(names, envs);
            Upgraded(names, db, envs)
            == Prepared(names, db, envs).(journals := db.journals + FlatMap(ms, OpeningOf(names, db)),
                                          postings := db.postings + FlatMap(ms, PairOf(names, db)))
  {
    hide Legacy, Fresh, LegacyTotals;
    var ms, accounts := DefaultMerchants(names, envs), Prepared(names, db, envs).accounts;
    var totals := LegacyTotals(accounts, db.postings);
    forall m | m in ms ensures OpeningsFor(names, totals)(m) == OpeningOf(names, db)(m) {
      OpeningJoinsOnce(names, db, envs, m);
    }
    FlatMapEqual(ms, OpeningsFor(names, totals), OpeningOf(names, db));
    var f := PostingsOf(names, totals, accounts);
    forall m | m in ms ensures PairOf(names, db)(m) == FlatMap(OpeningOf(names, db)(m), f) {
      if Opens(db, m) {
        FlatMapSingle(OpeningJournal(names, m), f);
        PostingsJoinOnce(names, db, envs, m);
      }
    }
    FlatMapFlatMap(ms, OpeningOf(names, db), f, PairOf(names, db));
  }

  // --- the constraints -------------------------------------------------------------------------

  lemma OpeningMembers(names: Names, db: Tables, ms: seq<Merchant>, j: Journal)
    ensures j in FlatMap(ms, OpeningOf(names, db)) <==>
            exists m :: m in ms && Opens(db, m) && j == OpeningJournal(names, m)
  {
    FlatMapMembers(ms, OpeningOf(names, db), j);
  }

  lemma MoveMembers(names: Names, db: Tables, ms: seq<Merchant>, p: Posting)
    ensures p in FlatMap(ms, PairOf(names, db)) <==>
            exists m :: m in ms && Opens(db, m) && (p == Move(names, db, m, Debit) || p == Move(names, db, m, Credit))
  {
    FlatMapMembers(ms, PairOf(names, db), p);
  }

  lemma JournalKeysUnique(names: Names, db: Tables, envs: seq<Environment>)
    requires Legacy(db, envs) && Fresh(names, db)
    ensures Unique(db.journals + FlatMap(DefaultMerchants(names, envs), OpeningOf(names, db)), JournalKey)
  {
    var ms := DefaultMerchants(names, envs);
    var opening := FlatMap(ms, OpeningOf(names, db));
    forall i, j | 0 <= i < j < |ms|
      ensures KeysApart(OpeningOf(names, db)(ms[i]), OpeningOf(names, db)(ms[j]), JournalKey)
    {
      MerchantsDiffer(names, db, envs, i, j);
    }
    UniqueFlatMap(ms, OpeningOf(names, db), JournalKey);
    forall x, y | x in db.journals && y in opening ensures JournalKey(x) != JournalKey(y) {
      OpeningMembers(names, db, ms, y);
    }
    UniqueAppend(db.journals, opening, JournalKey);
  }

  lemma PairsApart(names: Names, db: Tables, m: Merchant, n: Merchant)
    requires Fresh(names, db) && m.id != n.id
    ensures Unique(PairOf(names, db)(m), PostingKey)
            && KeysApart(PairOf(names, db)(m), PairOf(names, db)(n), PostingKey)
  {
  }

  lemma PostingKeysUnique(names: Names, db: Tables, envs: seq<Environment>)
    requires Legacy(db, envs) && Fresh(names, db)
    ensures Unique(db.postings + FlatMap(DefaultMerchants(names, envs), PairOf(names, db)), PostingKey)
  {
    hide Legacy, Fresh, PairOf;
    var ms := DefaultMerchants(names, envs);
    var added := FlatMap(ms, PairOf(names, db));
    forall m | m in ms ensures Unique(PairOf(names, db)(m), PostingKey) {
      PairsApart(names, db, m, m.(id := m.id + 1));
    }
    forall i, j | 0 <= i < j < |ms|
      ensures KeysApart(PairOf(names, db)(ms[i]), PairOf(names, db)(ms[j]), PostingKey)
    {
      MerchantsDiffer(names, db, envs, i, j);
      PairsApart(names, db, ms[i], ms[j]);
    }
    UniqueFlatMap(ms, PairOf(names, db), PostingKey);
    FreshPostings(names, db);
    LegacyLedger(db, envs);
    forall x, y | x in db.postings && y in added ensures PostingKey(x) != PostingKey(y) {
      MoveMembers(names, db, ms, y);
    }
    UniqueAppend(db.postings, added, PostingKey);
  }

  /** An inserted journal's merchant is the one it is for. */
  lemma OpeningNames(names: Names, db: Tables, envs: seq<Environment>, m: Merchant, n: Merchant)
    requires Legacy(db, envs) && Fresh(names, db)
    requires m in DefaultMerchants(names, envs) && n in DefaultMerchants(names, envs)
    requires m.id == n.id || names.journal(m.id) == names.journal(n.id) || m.env == n.env
    ensures m == n
  {
    var ms := DefaultMerchants(names, envs);
    var i :| 0 <= i < |ms| && ms[i] == m;
    var j :| 0 <= j < |ms| && ms[j] == n;
    if i != j {
      MerchantsDiffer(names, db, envs, i, j);
    }
  }

  /** A migrated journal is an old one or an opening. */
  lemma OldOrOpening(names: Names, db: Tables, envs: seq<Environment>, j: Journal)
    requires Legacy(db, envs) && Fresh(names, db) && j in Upgraded(names, db, envs).journals
    ensures j in db.journals || exists m :: m in DefaultMerchants(names, envs) && j == OpeningJournal(names, m)
  {
    hide Legacy, Fresh, Upgraded, DefaultMerchants;
    UpgradedExactly(names, db, envs);
    OpeningMembers(names, db, DefaultMerchants(names, envs), j);
  }

  lemma OneReferenceEach(names: Names, db: Tables, envs: seq<Environment>, j: Journal, k: Journal)
    requires Legacy(db, envs) && Fresh(names, db) && SameReferenceSlot(j, k)
    requires j in Upgraded(names, db, envs).journals && k in Upgraded(names, db, envs).journals
    ensures j == k
  {
    hide Legacy, Fresh, Upgraded, DefaultMerchants;
    LegacyLedger(db, envs);
    OldOrOpening(names, db, envs, j);
    OldOrOpening(names, db, envs, k);
    if j !in db.journals && k !in db.journals {
      var m :| m in DefaultMerchants(names, envs) && j == OpeningJournal(names, m);
      var n :| n in DefaultMerchants(names, envs) && k == OpeningJournal(names, n);
      OpeningNames(names, db, envs, m, n);
    }
  }

  lemma JournalFits(names: Names, db: Tables, envs: seq<Environment>, j: Journal)
    requires Legacy(db, envs) && Fresh(names, db) && j in Upgraded(names, db, envs).journals
    ensures var after := Upgraded(names, db, envs);
            && j.currency.Inr? && !j.kind.Authorize? && (j !in db.journals ==> j.operation.None?)
            && (j.operation.Some? ==> HasOperation(after.operations, j.operation.value, j.org, j.env))
            && (j.merchant.Some? ==> HasMerchant(after.merchants, j.merchant.value, j.org, j.env))
  {
    hide Legacy, Fresh, Upgraded, DefaultMerchants;
    LegacyLedger(db, envs);
    UpgradedExactly(names, db, envs);
    OldOrOpening(names, db, envs, j);
    assert Upgraded(names, db, envs).merchants == DefaultMerchants(names, envs);
  }

  lemma UpgradedJournalsValid(names: Names, db: Tables, envs: seq<Environment>)
    requires Legacy(db, envs) && Fresh(names, db)
    ensures JournalsValid(Upgraded(names, db, envs))
  {
    hide Legacy, Fresh, Upgraded, FlatMap, DefaultMerchants, HasOperation, HasMerchant;
    LegacyLedger(db, envs);
    var after := Upgraded(names, db, envs);
    UpgradedExactly(names, db, envs);
    JournalKeysUnique(names, db, envs);
    forall j | j in after.journals
      ensures j.currency.Inr? && !j.kind.Authorize? && (j !in db.journals ==> j.operation.None?)
      ensures j.operation.Some? ==> HasOperation(after.operations, j.operation.value, j.org, j.env)
      ensures j.merchant.Some? ==> HasMerchant(after.merchants, j.merchant.value, j.org, j.env)
    {
      JournalFits(names, db, envs, j);
    }
    forall j, k | j in after.journals && k in after.journals && SameReferenceSlot(j, k) ensures j == k {
      OneReferenceEach(names, db, envs, j, k);
    }
  }

  /** The journal and the two accounts of an opening are in the migrated tables. */
  lemma OpeningPresent(names: Names, db: Tables, envs: seq<Environment>, m: Merchant)
    requires Legacy(db, envs) && Fresh(names, db) && m in DefaultMerchants(names, envs) && Opens(db, m)
    ensures var after := Upgraded(names, db, envs);
            && OpeningJournal(names, m) in after.journals
            && TemplateAccount(names, m, PendingPayable) in after.accounts
            && LegacyAccount(db.accounts, m.org, m.env).Some?
            && LegacyAccount(db.accounts, m.org, m.env).value in after.accounts
  {
    hide Legacy, Fresh, Upgraded;
    var ms := DefaultMerchants(names, envs);
    UpgradedExactly(names, db, envs);
    OpeningMembers(names, db, ms, OpeningJournal(names, m));
    TemplatesExact(names, ms, TemplateAccount(names, m, PendingPayable));
  }

  lemma MoveFits(names: Names, db: Tables, envs: seq<Environment>, p: Posting)
    requires Legacy(db, envs) && Fresh(names, db) && p in FlatMap(DefaultMerchants(names, envs), PairOf(names, db))
    ensures p.amount > 0 && p.currency.Inr?
    ensures var after := Upgraded(names, db, envs);
            HasJournal(after.journals, p.journal, p.org, p.env) && HasAccount(after.accounts, p.account, p.org, p.env)
  {
    hide Legacy, Fresh, Upgraded, DefaultMerchants;
    var ms := DefaultMerchants(names, envs);
    MoveMembers(names, db, ms, p);
    var m :| m in ms && Opens(db, m) && (p == Move(names, db, m, Debit) || p == Move(names, db, m, Credit));
    OpeningPresent(names, db, envs, m);
  }

  lemma UpgradedPostingsValid(names: Names, db: Tables, envs: seq<Environment>)
    requires Legacy(db, envs) && Fresh(names, db)
    ensures PostingsValid(Upgraded(names, db, envs))
  {
    hide Legacy, Fresh, Upgraded, PairOf, OpeningOf;
    var after := Upgraded(names, db, envs);
    LegacyLedger(db, envs);
    UpgradedExactly(names, db, envs);
    PostingKeysUnique(names, db, envs);
    assert forall id, org, env :: HasJournal(db.journals, id, org, env) ==> HasJournal(after.journals, id, org, env);
    assert forall id, org, env :: HasAccount(db.accounts, id, org, env) ==> HasAccount(after.accounts, id, org, env);
    forall p | p in after.postings && p !in db.postings
      ensures p.amount > 0 && p.currency.Inr?
      ensures HasJournal(after.journals, p.journal, p.org, p.env) && HasAccount(after.accounts, p.account, p.org, p.env)
    {
      MoveFits(names, db, envs, p);
    }
  }

  /** Every constraint holds of the migrated tables: no insert of the migration is refused. */
  lemma UpgradedValid(names: Names, db: Tables, envs: seq<Environment>)
    requires Legacy(db, envs) && Fresh(names, db)
    ensures Valid(Upgraded(names, db, envs))
  {
    var after := Upgraded(names, db, envs);
    UpgradedExactly(names, db, envs);
    PreparedAccountsValid(names, db, envs);
    UpgradedJournalsValid(names, db, envs);
    UpgradedPostingsValid(names, db, envs);
    RestStaysValid(db, after);
  }

  lemma RestStaysValid(db: Tables, after: Tables)
    requires Valid(db) && db.merchants == [] && AccountsValid(after) && JournalsValid(after) && PostingsValid(after)
    requires after == db.(merchants := after.merchants, accounts := after.accounts, journals := after.journals,
                         postings := after.postings)
    requires db.journals <= after.journals
    ensures Valid(after)
  {
    assert forall id, org, env :: HasJournal(db.journals, id, org, env) ==> HasJournal(after.journals, id, org, env);
    assert CapturesValid(after) by { assert forall c :: c in db.captures ==> CaptureLinked(db, c); }
    assert RefundsValid(after) by { assert forall r :: r in db.refunds ==> RefundLinked(db, r); }
    assert ReservationsValid(after) by { assert forall v :: v in db.reservations ==> ReservationLinked(db, v); }
  }

  // --- the balance transactions ----------------------------------------------------------------

  /** Of all postings, the credit of an opening journal is the one the migration made for it. */
  lemma OldPostingsElsewhere(names: Names, db: Tables, envs: seq<Environment>, m: Id)
    requires Legacy(db, envs) && Fresh(names, db)
    ensures forall p :: p in db.postings ==> p.journal != names.journal(m)
  {
    hide Legacy, Fresh;
    LegacyLedger(db, envs);
    FreshJournals(names, db);
    forall p | p in db.postings ensures p.journal != names.journal(m) {
      var j :| j in db.journals && j.id == p.journal;
    }
  }

  lemma CreditIsTheMove(names: Names, db: Tables, envs: seq<Environment>, m: Merchant, p: Posting)
    requires Legacy(db, envs) && Fresh(names, db) && m in DefaultMerchants(names, envs) && Opens(db, m)
    requires p in Upgraded(names, db, envs).postings && CreditOfJournal(OpeningJournal(names, m))(p)
    ensures p == Move(names, db, m, Credit)
  {
    hide Legacy, Fresh, Upgraded;
    var ms := DefaultMerchants(names, envs);
    UpgradedExactly(names, db, envs);
    OldPostingsElsewhere(names, db, envs, m.id);
    MoveMembers(names, db, ms, p);
    var n :| n in ms && Opens(db, n) && (p == Move(names, db, n, Debit) || p == Move(names, db, n, Credit));
    OpeningNames(names, db, envs, m, n);
  }

  lemma BalanceJoinsOnce(names: Names, db: Tables, envs: seq<Environment>, m: Merchant)
    requires Legacy(db, envs) && Fresh(names, db) && m in DefaultMerchants(names, envs) && Opens(db, m)
    ensures var after := Upgraded(names, db, envs);
            BalancesOf(after.postings, after.accounts)(OpeningJournal(names, m)) == BalanceOf(names, db)(m)
  {
    hide Legacy, Fresh, Upgraded, Opens;
    var after, j := Upgraded(names, db, envs), OpeningJournal(names, m);
    var credit, ms := Move(names, db, m, Credit), DefaultMerchants(names, envs);
    UpgradedExactly(names, db, envs);
    UpgradedPostingsValid(names, db, envs);
    MoveMembers(names, db, ms, credit);
    forall p | p in after.postings && CreditOfJournal(j)(p) ensures p == credit {
      CreditIsTheMove(names, db, envs, m, p);
    }
    JoinedOnce(after.postings, PostingKey, credit, CreditOfJournal(j), ForCredit(after.accounts, j));
    hide Joined;
    CreditJoinsOnce(names, db, envs, m);
  }

  lemma CreditJoinsOnce(names: Names, db: Tables, envs: seq<Environment>, m: Merchant)
    requires Legacy(db, envs) && Fresh(names, db) && m in DefaultMerchants(names, envs) && Opens(db, m)
    ensures ForCredit(Upgraded(names, db, envs).accounts, OpeningJournal(names, m))(Move(names, db, m, Credit))
         == BalanceOf(names, db)(m)
  {
    hide Legacy, Fresh, Upgraded, DefaultMerchants;
    var accounts, j := Upgraded(names, db, envs).accounts, OpeningJournal(names, m);
    var credit, pending := Move(names, db, m, Credit), TemplateAccount(names, m, PendingPayable);
    UpgradedExactly(names, db, envs);
    PreparedKeysUnique(names, db, envs);
    OpeningPresent(names, db, envs, m);
    forall a | a in accounts && PendingAccount(credit)(a) ensures a == pending {
      SameRow(accounts, AccountKey, a, pending);
    }
    JoinedOnce(accounts, AccountKey, pending, PendingAccount(credit), ForAccount(j, credit));
  }

  /** The last statement gives one balance transaction per opening, for the legacy position. */
  lemma BalancesExactly(names: Names, db: Tables, envs: seq<Environment>)
    requires Legacy(db, envs) && Fresh(names, db)
    ensures BalanceTransactions(Upgraded(names, db, envs))
            == FlatMap(DefaultMerchants(names, envs), BalanceOf(names, db))
  {
    var after, ms := Upgraded(names, db, envs), DefaultMerchants(names, envs);
    var f := BalancesOf(after.postings, after.accounts);
    UpgradedExactly(names, db, envs);
    FlatMapAppend(db.journals, FlatMap(ms, OpeningOf(names, db)), f);
    FlatMapNone(db.journals, f);
    hide Valid, Legacy, Fresh, Upgraded;
    forall m | m in ms ensures BalanceOf(names, db)(m) == FlatMap(OpeningOf(names, db)(m), f) {
      if Opens(db, m) {
        FlatMapSingle(OpeningJournal(names, m), f);
        BalanceJoinsOnce(names, db, envs, m);
      }
    }
    FlatMapFlatMap(ms, OpeningOf(names, db), f, BalanceOf(names, db));
  }

  // --- sums over what the migration adds -------------------------------------------------------

  /** What one merchant's opening adds to a sum over postings. */
  function PairSum(names: Names, db: Tables, f: Posting -> int): Merchant -> int {
    (m: Merchant) => Sum(PairOf(names, db)(m), f)
  }

  lemma AddedSum(names: Names, db: Tables, envs: seq<Environment>, f: Posting -> int)
    requires Legacy(db, envs) && Fresh(names, db)
    ensures Sum(Upgraded(names, db, envs).postings, f)
         == Sum(db.postings, f) + Sum(DefaultMerchants(names, envs), PairSum(names, db, f))
  {
    hide Legacy, Fresh, Upgraded;
    var ms := DefaultMerchants(names, envs);
    UpgradedExactly(names, db, envs);
    SumAppend(db.postings, FlatMap(ms, PairOf(names, db)), f);
    FlatMapSum(ms, PairOf(names, db), f, PairSum(names, db, f));
  }

  /** A sum to which only one merchant's opening can add. */
  lemma OneOpeningCounts(names: Names, db: Tables, envs: seq<Environment>, m: Merchant, f: Posting -> int)
    requires Legacy(db, envs) && Fresh(names, db) && m in DefaultMerchants(names, envs)
    requires forall n, p :: n in DefaultMerchants(names, envs) && n != m && p in PairOf(names, db)(n) ==> f(p) == 0
    ensures Sum(Upgraded(names, db, envs).postings, f) == Sum(db.postings, f) + Sum(PairOf(names, db)(m), f)
  {
    hide Legacy, Fresh, Upgraded, PairOf;
    var ms := DefaultMerchants(names, envs);
    AddedSum(names, db, envs, f);
    var k :| 0 <= k < |ms| && ms[k] == m;
    forall i | 0 <= i < |ms| && i != k ensures PairSum(names, db, f)(ms[i]) == 0 {
      MerchantsDiffer(names, db, envs, i, k);
      SumZero(PairOf(names, db)(ms[i]), f);
    }
    SumExactlyOne(ms, k, PairSum(names, db, f));
  }

  lemma PairTotals(names: Names, db: Tables, m: Merchant, f: Posting -> int)
    requires Opens(db, m)
    ensures Sum(PairOf(names, db)(m), f) == f(Move(names, db, m, Debit)) + f(Move(names, db, m, Credit))
  {
    SumTwo(Move(names, db, m, Debit), Move(names, db, m, Credit), f);
  }

  // --- what the migration achieves -------------------------------------------------------------

  /** No two scopes share a legacy account. */
  lemma LegacyAccountsDiffer(db: Tables, m: Merchant, n: Merchant)
    requires AccountsValid(db) && m.env != n.env
    requires LegacyAccount(db.accounts, m.org, m.env).Some? && LegacyAccount(db.accounts, n.org, n.env).Some?
    ensures LegacyAccount(db.accounts, m.org, m.env).value.id != LegacyAccount(db.accounts, n.org, n.env).value.id
  {
    var a, b := LegacyAccount(db.accounts, m.org, m.env).value, LegacyAccount(db.accounts, n.org, n.env).value;
    if a.id == b.id {
      SameRow(db.accounts, AccountKey, a, b);
    }
  }

  lemma FreshAccounts(names: Names, db: Tables)
    requires Fresh(names, db)
    ensures forall a, b, c, d :: names.account(a, c) == names.account(b, d) ==> a == b && c == d
    ensures forall x, m, c :: x in db.accounts ==> x.id != names.account(m, c)
  {
  }

  /** No other scope's opening touches this scope's legacy account. */
  lemma OtherOpeningsElsewhere(names: Names, db: Tables, envs: seq<Environment>, m: Merchant, n: Merchant, p: Posting)
    requires Legacy(db, envs) && Fresh(names, db) && LegacyAccount(db.accounts, m.org, m.env).Some?
    requires m in DefaultMerchants(names, envs) && n in DefaultMerchants(names, envs) && n != m
    requires p in PairOf(names, db)(n)
    ensures SignedOn(LegacyAccount(db.accounts, m.org, m.env).value.id)(p) == 0
  {
    hide Legacy, Fresh, DefaultMerchants;
    LegacyLedger(db, envs);
    FreshAccounts(names, db);
    if m.env == n.env {
      OpeningNames(names, db, envs, m, n);
    } else {
      LegacyAccountsDiffer(db, m, n);
    }
  }

  /** The legacy position of every scope that opened is zero afterwards; the others keep theirs. */
  lemma LegacyPositionsAreCleared(names: Names, db: Tables, envs: seq<Environment>, m: Merchant)
    requires Legacy(db, envs) && Fresh(names, db) && m in DefaultMerchants(names, envs)
    ensures Owed(Upgraded(names, db, envs), m) == if Opens(db, m) then 0 else Owed(db, m)
  {
    hide Legacy, Fresh, Upgraded, DefaultMerchants;
    UpgradedExactly(names, db, envs);
    LegacyStands(names, db, envs, m.org, m.env);
    FreshAccounts(names, db);
    if LegacyAccount(db.accounts, m.org, m.env).Some? {
      var a := LegacyAccount(db.accounts, m.org, m.env).value;
      forall n, p | n in DefaultMerchants(names, envs) && n != m && p in PairOf(names, db)(n)
        ensures SignedOn(a.id)(p) == 0
      {
        OtherOpeningsElsewhere(names, db, envs, m, n, p);
      }
      OneOpeningCounts(names, db, envs, m, SignedOn(a.id));
      if Opens(db, m) {
        PairTotals(names, db, m, SignedOn(a.id));
      }
    }
  }

  lemma OnlyItsOwnPostings(names: Names, db: Tables, envs: seq<Environment>, m: Merchant, f: Posting -> int)
    requires Legacy(db, envs) && Fresh(names, db) && m in DefaultMerchants(names, envs) && Opens(db, m)
    requires forall p: Posting :: p.journal != names.journal(m.id) ==> f(p) == 0
    ensures Sum(Upgraded(names, db, envs).postings, f) == f(Move(names, db, m, Debit)) + f(Move(names, db, m, Credit))
  {
    hide Legacy, Fresh, Upgraded, DefaultMerchants;
    forall n, p | n in DefaultMerchants(names, envs) && n != m && p in PairOf(names, db)(n) ensures f(p) == 0 {
      if names.journal(n.id) == names.journal(m.id) {
        OpeningNames(names, db, envs, m, n);
      }
    }
    OneOpeningCounts(names, db, envs, m, f);
    OldPostingsElsewhere(names, db, envs, m.id);
    SumZero(db.postings, f);
    PairTotals(names, db, m, f);
  }

  /** Each opening journal has exactly its two postings, for the legacy position on both sides. */
  lemma OpeningJournalBalances(names: Names, db: Tables, envs: seq<Environment>, m: Merchant)
    requires Legacy(db, envs) && Fresh(names, db) && m in DefaultMerchants(names, envs) && Opens(db, m)
    ensures var after, j := Upgraded(names, db, envs), names.journal(m.id);
            && Sum(after.postings, CountOf(j)) == 2
            && Sum(after.postings, DebitOf(j)) == Owed(db, m)
            && Sum(after.postings, CreditOf(j)) == Owed(db, m)
  {
    hide Legacy, Fresh, Upgraded, DefaultMerchants;
    OnlyItsOwnPostings(names, db, envs, m, CountOf(names.journal(m.id)));
    OnlyItsOwnPostings(names, db, envs, m, DebitOf(names.journal(m.id)));
    OnlyItsOwnPostings(names, db, envs, m, CreditOf(names.journal(m.id)));
  }

  /** An OPENING journal stands in the migrated ledger exactly for the scopes with a positive legacy position. */
  lemma OpeningsExactly(names: Names, db: Tables, envs: seq<Environment>, j: Journal)
    requires Legacy(db, envs) && Fresh(names, db)
    ensures j in Upgraded(names, db, envs).journals && j.kind.Opening? <==>
            exists m :: m in DefaultMerchants(names, envs) && Opens(db, m) && j == OpeningJournal(names, m)
  {
    hide Legacy, Fresh, Upgraded, DefaultMerchants;
    LegacyLedger(db, envs);
    UpgradedExactly(names, db, envs);
    OpeningMembers(names, db, DefaultMerchants(names, envs), j);
  }

  function OpeningIn(org: Id, env: Id): Journal -> int {
    (j: Journal) => if j.kind.Opening? && j.org == org && j.env == env then 1 else 0
  }

  function OpensIn(names: Names, db: Tables, org: Id, env: Id): Merchant -> int {
    (m: Merchant) => Sum(OpeningOf(names, db)(m), OpeningIn(org, env))
  }

  lemma OpensOnce(names: Names, db: Tables, m: Merchant, org: Id, env: Id)
    ensures OpensIn(names, db, org, env)(m) == if Opens(db, m) && m.org == org && m.env == env then 1 else 0
  {
    SumOne(OpeningJournal(names, m), OpeningIn(org, env));
    if Opens(db, m) {
      assert OpeningOf(names, db)(m) == [OpeningJournal(names, m)];
    } else {
      assert OpeningOf(names, db)(m) == [];
    }
  }

  lemma OpeningSum(names: Names, db: Tables, envs: seq<Environment>, org: Id, env: Id)
    requires Legacy(db, envs) && Fresh(names, db)
    ensures Sum(Upgraded(names, db, envs).journals, OpeningIn(org, env))
         == Sum(DefaultMerchants(names, envs), OpensIn(names, db, org, env))
  {
    hide Legacy, Fresh, Upgraded, DefaultMerchants, OpeningOf;
    var ms, f := DefaultMerchants(names, envs), OpeningIn(org, env);
    LegacyLedger(db, envs);
    UpgradedExactly(names, db, envs);
    SumAppend(db.journals, FlatMap(ms, OpeningOf(names, db)), f);
    SumZero(db.journals, f);
    FlatMapSum(ms, OpeningOf(names, db), f, OpensIn(names, db, org, env));
  }

  /** Each scope has one opening journal or none, according to its legacy position. */
  lemma OpeningCount(names: Names, db: Tables, envs: seq<Environment>, m: Merchant)
    requires Legacy(db, envs) && Fresh(names, db) && m in DefaultMerchants(names, envs)
    ensures Sum(Upgraded(names, db, envs).journals, OpeningIn(m.org, m.env)) == if Opens(db, m) then 1 else 0
  {
    hide Legacy, Fresh, Upgraded, OpensIn, Opens;
    var ms, f := DefaultMerchants(names, envs), OpensIn(names, db, m.org, m.env);
    OpeningSum(names, db, envs, m.org, m.env);
    var k :| 0 <= k < |ms| && ms[k] == m;
    forall i | 0 <= i < |ms| && i != k ensures f(ms[i]) == 0 {
      MerchantsDiffer(names, db, envs, i, k);
      OpensOnce(names, db, ms[i], m.org, m.env);
    }
    SumExactlyOne(ms, k, f);
    OpensOnce(names, db, m, m.org, m.env);
  }

  /** The key of migration 0006: every account's scope is an environment. */
  ghost predicate ScopesListed(db: Tables, envs: seq<Environment>) {
    forall a :: a in db.accounts ==> exists e :: e in envs && e.id == a.env && e.org == a.org
  }

  lemma ListedScope(names: Names, db: Tables, envs: seq<Environment>, a: Account) returns (m: Merchant)
    requires ScopesListed(db, envs) && a in db.accounts
    ensures m in DefaultMerchants(names, envs) && m.org == a.org && m.env == a.env
  {
    var e :| e in envs && e.id == a.env && e.org == a.org;
    var k :| 0 <= k < |envs| && envs[k] == e;
    m := DefaultMerchants(names, envs)[k];
  }

  lemma EmptyScopeOpensNothing(names: Names, db: Tables, envs: seq<Environment>, org: Id, env: Id)
    requires Legacy(db, envs) && Fresh(names, db) && LegacyAccount(db.accounts, org, env).None?
    ensures LegacyPosition(Upgraded(names, db, envs).accounts, Upgraded(names, db, envs).postings, org, env) == 0
    ensures Sum(Upgraded(names, db, envs).journals, OpeningIn(org, env)) == 0
  {
    hide Legacy, Fresh, Upgraded, DefaultMerchants;
    var ms := DefaultMerchants(names, envs);
    UpgradedExactly(names, db, envs);
    LegacyStands(names, db, envs, org, env);
    OpeningSum(names, db, envs, org, env);
    forall m | m in ms ensures OpensIn(names, db, org, env)(m) == 0 {
      OpensOnce(names, db, m, org, env);
    }
    SumZero(ms, OpensIn(names, db, org, env));
  }

  /**
   Of every scope there is, with or without an account: a positive legacy position is cleared by one
   opening journal, and any other stands without one.
   */
  lemma EveryScopeIsSettled(names: Names, db: Tables, envs: seq<Environment>, org: Id, env: Id)
    requires Legacy(db, envs) && Fresh(names, db) && ScopesListed(db, envs)
    ensures var after, position := Upgraded(names, db, envs), LegacyPosition(db.accounts, db.postings, org, env);
            && LegacyPosition(after.accounts, after.postings, org, env) == (if position > 0 then 0 else position)
            && Sum(after.journals, OpeningIn(org, env)) == if position > 0 then 1 else 0
  {
    hide Legacy, Fresh, Upgraded, DefaultMerchants, ScopesListed, Balance, OpeningIn;
    var a := LegacyAccount(db.accounts, org, env);
    if a.None? {
      EmptyScopeOpensNothing(names, db, envs, org, env);
    } else {
      var m := ListedScope(names, db, envs, a.value);
      LegacyPositionsAreCleared(names, db, envs, m);
      OpeningCount(names, db, envs, m);
    }
  }

  /** The pending account of every merchant holds exactly the legacy position that was moved to it. */
  lemma PendingHolds(names: Names, db: Tables, envs: seq<Environment>, m: Merchant)
    requires Legacy(db, envs) && Fresh(names, db) && m in DefaultMerchants(names, envs)
    ensures Balance(Upgraded(names, db, envs).postings, names.account(m.id, PendingPayable))
         == if Opens(db, m) then Owed(db, m) else 0
  {
    hide Legacy, Fresh, Upgraded, DefaultMerchants;
    var f := SignedOn(names.account(m.id, PendingPayable));
    FreshAccounts(names, db);
    LegacyLedger(db, envs);
    forall n, p | n in DefaultMerchants(names, envs) && n != m && p in PairOf(names, db)(n) ensures f(p) == 0 {
      if n.id == m.id {
        OpeningNames(names, db, envs, m, n);
      }
    }
    OneOpeningCounts(names, db, envs, m, f);
    forall p | p in db.postings ensures f(p) == 0 {
      var a :| a in db.accounts && a.id == p.account;
    }
    SumZero(db.postings, f);
    if Opens(db, m) {
      PairTotals(names, db, m, f);
    }
  }

  /** A balance transaction is one merchant's, for a journal, and its delta is what the pending account holds. */
  predicate MatchesPending(db: Tables, t: BalanceTransaction) {
    && t.merchant.Some? && HasMerchant(db.merchants, t.merchant.value, t.org, t.env)
    && HasJournal(db.journals, t.journal, t.org, t.env) && t.pendingDelta > 0
    && var pending := AccountFor(db.accounts, t.org, t.env, t.merchant, PendingPayable);
       pending.Some? && t.pendingDelta == Balance(db.postings, pending.value.id)
  }

  /** Every balance transaction is one merchant's, and its delta is what that merchant's pending account holds. */
  lemma DeltasMatchPending(names: Names, db: Tables, envs: seq<Environment>, t: BalanceTransaction)
    requires Legacy(db, envs) && Fresh(names, db) && t in BalanceTransactions(Upgraded(names, db, envs))
    ensures MatchesPending(Upgraded(names, db, envs), t)
  {
    hide Legacy, Fresh, Upgraded, BalanceTransactions, FlatMap, Balance;
    var ms, after := DefaultMerchants(names, envs), Upgraded(names, db, envs);
    BalancesExactly(names, db, envs);
    FlatMapMembers(ms, BalanceOf(names, db), t);
    var m :| m in ms && t in BalanceOf(names, db)(m);
    OpeningPresent(names, db, envs, m);
    PendingHolds(names, db, envs, m);
    UpgradedExactly(names, db, envs);
    PreparedAccountsValid(names, db, envs);
    PendingFound(after.accounts, TemplateAccount(names, m, PendingPayable));
    assert m in after.merchants;
  }

  lemma PendingFound(accounts: seq<Account>, a: Account)
    requires OneSlot(accounts) && a in accounts
    ensures AccountFor(accounts, a.org, a.env, a.merchant, a.code) == Some(a)
  {
    assert HoldsSlot(a, a.org, a.env, a.merchant, a.code);
    assert SameCodeSlot(AccountFor(accounts, a.org, a.env, a.merchant, a.code).value, a);
  }

  // --- conservation ----------------------------------------------------------------------------

  predicate OwedToMerchants(code: AccountCode) {
    code.LegacyPayable? || code.PendingPayable? || code.AvailablePayable?
  }

  /** What a posting adds to the merchant liability of a scope. */
  function LiabilityIn(accounts: seq<Account>, org: Id, env: Id): Posting -> int {
    (p: Posting) =>
      var a := Lookup(accounts, AccountKey, p.account);
      if a.None? || a.value.org != org || a.value.env != env || !OwedToMerchants(a.value.code) then 0 else Signed(p)
  }

  lemma LookupFinds(accounts: seq<Account>, a: Account)
    requires Unique(accounts, AccountKey) && a in accounts
    ensures Lookup(accounts, AccountKey, a.id) == Some(a)
  {
    SameRow(accounts, AccountKey, Lookup(accounts, AccountKey, a.id).value, a);
  }

  lemma OldLiability(names: Names, db: Tables, envs: seq<Environment>, p: Posting, org: Id, env: Id)
    requires Legacy(db, envs) && Fresh(names, db) && p in db.postings
    ensures LiabilityIn(Upgraded(names, db, envs).accounts, org, env)(p) == LiabilityIn(db.accounts, org, env)(p)
  {
    hide Legacy, Fresh, Upgraded;
    LegacyLedger(db, envs);
    assert HasAccount(db.accounts, p.account, p.org, p.env);
    var a :| a in db.accounts && a.id == p.account;
    UpgradedExactly(names, db, envs);
    PreparedKeysUnique(names, db, envs);
    LookupFinds(db.accounts, a);
    LookupFinds(Upgraded(names, db, envs).accounts, a);
  }

  /** A pair moves its amount from one merchant liability of its scope to another. */
  lemma PairMovesNothing(names: Names, db: Tables, envs: seq<Environment>, m: Merchant, org: Id, env: Id)
    requires Legacy(db, envs) && Fresh(names, db) && m in DefaultMerchants(names, envs)
    ensures PairSum(names, db, LiabilityIn(Upgraded(names, db, envs).accounts, org, env))(m) == 0
  {
    hide Legacy, Fresh, Upgraded, DefaultMerchants;
    var all := Upgraded(names, db, envs).accounts;
    if Opens(db, m) {
      OpeningPresent(names, db, envs, m);
      UpgradedExactly(names, db, envs);
      PreparedKeysUnique(names, db, envs);
      LookupFinds(all, LegacyAccount(db.accounts, m.org, m.env).value);
      LookupFinds(all, TemplateAccount(names, m, PendingPayable));
      PairTotals(names, db, m, LiabilityIn(all, org, env));
    } else {
      assert PairOf(names, db)(m) == [];
    }
  }

  /** What the merchants of a scope are owed is the same before and after. */
  lemma LiabilityIsConserved(names: Names, db: Tables, envs: seq<Environment>, org: Id, env: Id)
    requires Legacy(db, envs) && Fresh(names, db)
    ensures var after := Upgraded(names, db, envs);
            Sum(after.postings, LiabilityIn(after.accounts, org, env))
            == Sum(db.postings, LiabilityIn(db.accounts, org, env))
  {
    hide Legacy, Fresh, Upgraded, DefaultMerchants, LiabilityIn;
    var ms, f := DefaultMerchants(names, envs), LiabilityIn(Upgraded(names, db, envs).accounts, org, env);
    AddedSum(names, db, envs, f);
    forall p | p in db.postings ensures f(p) == LiabilityIn(db.accounts, org, env)(p) {
      OldLiability(names, db, envs, p, org, env);
    }
    SumEqual(db.postings, f, LiabilityIn(db.accounts, org, env));
    forall m | m in ms ensures PairSum(names, db, f)(m) == 0 {
      PairMovesNothing(names, db, envs, m, org, env);
    }
    SumZero(ms, PairSum(names, db, f));
  }

  // --- the deferred triggers at commit ---------------------------------------------------------

  lemma EverythingIsInr(names: Names, db: Tables, envs: seq<Environment>, j: Id)
    requires Legacy(db, envs) && Fresh(names, db)
    ensures var after := Upgraded(names, db, envs); Sum(after.postings, WrongCurrencyOf(j, CurrencyOf(after, j))) == 0
  {
    hide Legacy, Fresh, Upgraded;
    var after := Upgraded(names, db, envs);
    UpgradedJournalsValid(names, db, envs);
    UpgradedPostingsValid(names, db, envs);
    SumZero(after.postings, WrongCurrencyOf(j, CurrencyOf(after, j)));
  }

  lemma OpeningPassesBinding(names: Names, db: Tables, envs: seq<Environment>, m: Merchant)
    requires Legacy(db, envs) && Fresh(names, db) && m in DefaultMerchants(names, envs)
    ensures !JournalOperationRejects(Upgraded(names, db, envs), OpeningJournal(names, m))
  {
    hide Legacy;
    var after, j := Upgraded(names, db, envs), OpeningJournal(names, m);
    assert after.refunds == db.refunds;
    var k :| 0 <= k < |envs| && m == DefaultMerchant(names, envs[k]);
    assert Lookup(after.refunds, RefundKey, j.reference).None?;
  }

  /**
   The deferred triggers let the migration commit: every new journal balances, and having no provider
   operation and no refund of that id it meets only NULL comparisons in the binding check; every new
   posting belongs to such a journal.
   */
  lemma TriggersAcceptOpenings(names: Names, db: Tables, envs: seq<Environment>)
    requires Legacy(db, envs) && Fresh(names, db)
    ensures var after := Upgraded(names, db, envs);
            && (forall j :: j in after.journals && j !in db.journals ==>
                  !BalanceRejects(after, j.id) && !JournalOperationRejects(after, j))
            && (forall p :: p in after.postings && p !in db.postings ==> !BalanceRejects(after, p.journal))
  {
    hide Legacy, Fresh, Upgraded, DefaultMerchants, BalanceRejects, JournalOperationRejects, Opens;
    var ms, after := DefaultMerchants(names, envs), Upgraded(names, db, envs);
    UpgradedExactly(names, db, envs);
    forall j | j in after.journals && j !in db.journals
      ensures !BalanceRejects(after, j.id) && !JournalOperationRejects(after, j)
    {
      OpeningMembers(names, db, ms, j);
      var m :| m in ms && Opens(db, m) && j == OpeningJournal(names, m);
      OpeningPassesBalance(names, db, envs, m);
      OpeningPassesBinding(names, db, envs, m);
    }
    forall p | p in after.postings && p !in db.postings ensures !BalanceRejects(after, p.journal) {
      MoveMembers(names, db, ms, p);
      var m :| m in ms && Opens(db, m) && p in PairOf(names, db)(m);
      OpeningPassesBalance(names, db, envs, m);
    }
  }

  lemma OpeningPassesBalance(names: Names, db: Tables, envs: seq<Environment>, m: Merchant)
    requires Legacy(db, envs) && Fresh(names, db) && m in DefaultMerchants(names, envs) && Opens(db, m)
    ensures !BalanceRejects(Upgraded(names, db, envs), names.journal(m.id))
  {
    hide Legacy, Fresh, Upgraded, DefaultMerchants;
    OpeningJournalBalances(names, db, envs, m);
    EverythingIsInr(names, db, envs, names.journal(m.id));
  }

  // --- and back --------------------------------------------------------------------------------

  /** `DELETE FROM rows WHERE drop` */
  function Without<T>(rows: seq<T>, drop: T -> bool): seq<T> {
    FlatMap(rows, (r: T) => if drop(r) then [] else [r])
  }

  function OpeningIds(journals: seq<Journal>): set<Id> {
    set j | j in journals && j.kind.Opening? :: j.id
  }

  function Downgraded(db: Tables): Tables {
    var opening := OpeningIds(db.journals);
    db.(merchants := [],
        accounts := Without(db.accounts, (a: Account) => a.merchant.Some?),
        journals := Without(db.journals, (j: Journal) => j.kind.Opening?),
        postings := Without(db.postings, (p: Posting) => p.journal in opening))
  }

  lemma {:induction false} WithoutKeepsAll<T>(rows: seq<T>, drop: T -> bool)
    requires forall r :: r in rows ==> !drop(r)
    ensures Without(rows, drop) == rows
  {
    if rows != [] {
      var front, last := rows[..|rows| - 1], rows[|rows| - 1];
      assert last in rows && rows == front + [last];
      WithoutKeepsAll(front, drop);
    }
  }

  /** Deleting what was appended gives back what was there. */
  lemma WithoutRestores<T>(kept: seq<T>, added: seq<T>, drop: T -> bool)
    requires forall r :: r in kept ==> !drop(r)
    requires forall r :: r in added ==> drop(r)
    ensures Without(kept + added, drop) == kept
  {
    var f := (r: T) => if drop(r) then [] else [r];
    FlatMapAppend(kept, added, f);
    WithoutKeepsAll(kept, drop);
    FlatMapNone(added, f);
  }

  lemma OldPostingIsNotOpening(names: Names, db: Tables, envs: seq<Environment>, p: Posting)
    requires Legacy(db, envs) && Fresh(names, db) && p in db.postings
    ensures p.journal !in OpeningIds(Upgraded(names, db, envs).journals)
  {
    hide Legacy, Fresh, Upgraded, DefaultMerchants;
    forall j | j in Upgraded(names, db, envs).journals && j.kind.Opening? ensures j.id != p.journal {
      OpeningsExactly(names, db, envs, j);
      var m :| m in DefaultMerchants(names, envs) && Opens(db, m) && j == OpeningJournal(names, m);
      OldPostingsElsewhere(names, db, envs, m.id);
    }
  }

  lemma NewPostingIsOpening(names: Names, db: Tables, envs: seq<Environment>, p: Posting)
    requires Legacy(db, envs) && Fresh(names, db) && p in FlatMap(DefaultMerchants(names, envs), PairOf(names, db))
    ensures p.journal in OpeningIds(Upgraded(names, db, envs).journals)
  {
    hide Legacy, Fresh, Upgraded, DefaultMerchants;
    MoveMembers(names, db, DefaultMerchants(names, envs), p);
    var m :| m in DefaultMerchants(names, envs) && Opens(db, m) && p in PairOf(names, db)(m);
    OpeningPresent(names, db, envs, m);
    assert OpeningJournal(names, m).id == p.journal;
  }

  /** An immediate downgrade restores the original tables, row for row. */
  lemma DowngradeRestores(names: Names, db: Tables, envs: seq<Environment>)
    requires Legacy(db, envs) && Fresh(names, db)
    ensures Downgraded(Upgraded(names, db, envs)) == db
  {
    hide Legacy, Fresh, Upgraded, DefaultMerchants, Without, OpeningIds;
    var ms, after := DefaultMerchants(names, envs), Upgraded(names, db, envs);
    LegacyLedger(db, envs);
    UpgradedExactly(names, db, envs);
    LegacyAccountsAreGlobal(db, envs);
    forall a | a in TemplateAccounts(names, ms) ensures a.merchant.Some? {
      TemplatesExact(names, ms, a);
    }
    WithoutRestores(db.accounts, TemplateAccounts(names, ms), (a: Account) => a.merchant.Some?);
    forall j | j in FlatMap(ms, OpeningOf(names, db)) ensures j.kind.Opening? {
      OpeningMembers(names, db, ms, j);
    }
    WithoutRestores(db.journals, FlatMap(ms, OpeningOf(names, db)), (j: Journal) => j.kind.Opening?);
    var opening := OpeningIds(after.journals);
    forall p | p in db.postings ensures p.journal !in opening {
      OldPostingIsNotOpening(names, db, envs, p);
    }
    forall p | p in FlatMap(ms, PairOf(names, db)) ensures p.journal in opening {
      NewPostingIsOpening(names, db, envs, p);
    }
    WithoutRestores(db.postings, FlatMap(ms, PairOf(names, db)), (p: Posting) => p.journal in opening);
  }

  lemma OneMerchantEach(names: Names, db: Tables, envs: seq<Environment>)
    requires Legacy(db, envs) && Fresh(names, db)
    ensures Upgraded(names, db, envs).merchants == DefaultMerchants(names, envs)
  {
    hide Legacy, Fresh, Upgraded;
    UpgradedExactly(names, db, envs);
  }

  /** Every opened scope has its balance transaction. */
  lemma OpeningIsRecorded(names: Names, db: Tables, envs: seq<Environment>, m: Merchant)
    requires Legacy(db, envs) && Fresh(names, db) && m in DefaultMerchants(names, envs) && Opens(db, m)
    ensures exists t :: t in BalanceTransactions(Upgraded(names, db, envs))
                     && t.merchant == Some(m.id) && t.pendingDelta == Owed(db, m)
  {
    hide Legacy, Fresh, Upgraded, DefaultMerchants, BalanceTransactions;
    BalancesExactly(names, db, envs);
    var t := BalanceOf(names, db)(m)[0];
    FlatMapMembers(DefaultMerchants(names, envs), BalanceOf(names, db), t);
  }

  // --- the migration ---------------------------------------------------------------------------

  /** The statements in order: merchants, their accounts, the openings, the balance transactions. */
  method Upgrade(names: Names, db: Tables, envs: seq<Environment>)
    returns (after: Tables, balances: seq<BalanceTransaction>)
    requires Legacy(db, envs) && Fresh(names, db)
    ensures Valid(after)
    ensures |after.merchants| == |envs|
    ensures forall k :: 0 <= k < |envs| ==>
              after.merchants[k].org == envs[k].org && after.merchants[k].env == envs[k].id
    ensures forall m :: m in after.merchants ==> Owed(after, m) == if Opens(db, m) then 0 else Owed(db, m)
    ensures forall m :: m in after.merchants ==>
              Sum(after.journals, OpeningIn(m.org, m.env)) == if Opens(db, m) then 1 else 0
    ensures ScopesListed(db, envs) ==> forall org, env ::
              var position := LegacyPosition(db.accounts, db.postings, org, env);
              && LegacyPosition(after.accounts, after.postings, org, env) == (if position > 0 then 0 else position)
              && Sum(after.journals, OpeningIn(org, env)) == if position > 0 then 1 else 0
    ensures forall t :: t in balances ==> MatchesPending(after, t)
    ensures forall m :: m in after.merchants && Opens(db, m) ==>
              exists t :: t in balances && t.merchant == Some(m.id) && t.pendingDelta == Owed(db, m)
    ensures forall org, env :: Sum(after.postings, LiabilityIn(after.accounts, org, env))
                            == Sum(db.postings, LiabilityIn(db.accounts, org, env))
    ensures Downgraded(after) == db
  {
    hide Valid, Legacy, Fresh, MatchesPending, Downgraded, LiabilityIn, Opens, Owed, OpeningIn, BalanceTransactions,
         WithAccounts, WithOpenings, ScopesListed, LegacyPosition;
    after := WithMerchants(names, db, envs);
    after := WithAccounts(names, after);
    after := WithOpenings(names, after);
    balances := BalanceTransactions(after);
    assert after == Upgraded(names, db, envs);
    hide Upgraded, WithMerchants;
    OneMerchantEach(names, db, envs);
    UpgradedValid(names, db, envs);
    DowngradeRestores(names, db, envs);
    forall m | m in after.merchants
      ensures Owed(after, m) == if Opens(db, m) then 0 else Owed(db, m)
      ensures Sum(after.journals, OpeningIn(m.org, m.env)) == if Opens(db, m) then 1 else 0
    {
      LegacyPositionsAreCleared(names, db, envs, m);
      OpeningCount(names, db, envs, m);
    }
    if ScopesListed(db, envs) {
      forall org, env
        ensures var position := LegacyPosition(db.accounts, db.postings, org, env);
                && LegacyPosition(after.accounts, after.postings, org, env) == (if position > 0 then 0 else position)
                && Sum(after.journals, OpeningIn(org, env)) == if position > 0 then 1 else 0
      {
        EveryScopeIsSettled(names, db, envs, org, env);
      }
    }
    forall m | m in after.merchants && Opens(db, m)
      ensures exists t :: t in balances && t.merchant == Some(m.id) && t.pendingDelta == Owed(db, m)
    {
      OpeningIsRecorded(names, db, envs, m);
    }
    forall t | t in balances ensures MatchesPending(after, t) {
      DeltasMatchPending(names, db, envs, t);
    }
    forall org, env
      ensures Sum(after.postings, LiabilityIn(after.accounts, org, env))
              == Sum(db.postings, LiabilityIn(db.accounts, org, env))
    {
      LiabilityIsConserved(names, db, envs, org, env);
    }
  }
}
