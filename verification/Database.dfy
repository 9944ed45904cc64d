/**
 SQL's three-valued logic, as far as the PL/pgSQL guards use it. `IF c THEN RAISE` raises only when
 `c` is TRUE: a comparison with NULL is UNKNOWN and lets the row through.
 */
module Sql {
  import opened Basics

  datatype Truth = True | False | Unknown

  function Or(a: Truth, b: Truth): Truth {
    if a.True? || b.True? then True else if a.False? && b.False? then False else Unknown
  }

  /** `a <> b` */
  function Differs<T(==)>(a: Option<T>, b: Option<T>): Truth {
    if a.None? || b.None? then Unknown else if a.value != b.value then True else False
  }

  /** `a > b` */
  function Exceeds(a: Option<int>, b: Option<int>): Truth {
    if a.None? || b.None? then Unknown else if a.value > b.value then True else False
  }
}

/**
 The money tables and their guards as of migration 0023 (from migrations 0001, 0002, 0006, 0009, 0010,
 0019, 0020, 0022 and 0023) as a transaction system. A transaction runs its statements one by one (row
 triggers and immediate constraints at once), queues an event for every deferred constraint trigger,
 and at commit evaluates the deferred keys and the queued events against the final tables: everything
 is kept or nothing is.
 */
module Database {
  import opened Basics
  import opened Rows
  import opened Sums
  import opened Sql

  // --- rows ------------------------------------------------------------------------------------

  datatype Currency = Inr | Foreign(code: string)
  datatype Side = Debit | Credit
  datatype Status = Processing | RequiresReview | Succeeded | Failed

  /** `provider_operations.kind` and `journals.journal_type` are compared with each other. */
  datatype Kind = Authorize | Capture | Refund | Compensation | Opening | Settlement | Payout

  datatype PaymentStatus =
    | Created | RequiresAction | Authorised | Captured | PartiallyRefunded | Refunded
    | PaymentFailed | Expired | Cancelled

  datatype AccountCode =
    | ProviderClearing
    | LegacyPayable      // MERCHANT_PAYABLE_LIABILITY
    | PendingPayable
    | AvailablePayable
    | PayoutClearing
    | MerchantReceivable
    | PlatformAccount

  datatype Merchant = Merchant(id: Id, org: Id, env: Id)
  datatype Account = Account(id: Id, org: Id, env: Id, merchant: Option<Id>, code: AccountCode)
  datatype Payment = Payment(id: Id, org: Id, env: Id, status: PaymentStatus)

  /** An operation's resource type goes with its kind; any other pairing never commits. */
  datatype Operation = Operation(id: Id, org: Id, env: Id, payment: Id, kind: Kind, resource: Id, status: Status)
  datatype Authorization =
    Authorization(id: Id, org: Id, env: Id, payment: Id, operation: Id, amount: int, status: Status)
  datatype Journal =
    Journal(id: Id, org: Id, env: Id, merchant: Option<Id>, operation: Option<Id>, kind: Kind, reference: Id,
            currency: Currency)
  datatype Posting =
    Posting(id: Id, org: Id, env: Id, journal: Id, account: Id, side: Side, amount: int, currency: Currency)
  datatype CaptureRow =
    CaptureRow(id: Id, org: Id, env: Id, payment: Id, authorization: Id, operation: Id, amount: int,
               status: Status, journal: Option<Id>)
  datatype RefundRow =
    RefundRow(id: Id, org: Id, env: Id, payment: Id, capture: Id, operation: Id, amount: int,
              status: Status, journal: Option<Id>)
  datatype PayoutRow = PayoutRow(id: Id, org: Id, env: Id, merchant: Id)
  datatype Reservation =
    Reservation(id: Id, org: Id, env: Id, merchant: Id, payout: Id, sequence: int, delta: int)

  datatype Tables = Tables(
    merchants: seq<Merchant>,
    accounts: seq<Account>,
    payments: seq<Payment>,
    operations: seq<Operation>,
    authorizations: seq<Authorization>,
    journals: seq<Journal>,
    postings: seq<Posting>,
    captures: seq<CaptureRow>,
    refunds: seq<RefundRow>,
    payouts: seq<PayoutRow>,
    reservations: seq<Reservation>)

  const EMPTY := Tables([], [], [], [], [], [], [], [], [], [], [])

  function MerchantKey(m: Merchant): Id { m.id }
  function AccountKey(a: Account): Id { a.id }
  function PaymentKey(p: Payment): Id { p.id }
  function OperationKey(o: Operation): Id { o.id }
  function AuthorizationKey(a: Authorization): Id { a.id }
  function JournalKey(j: Journal): Id { j.id }
  function PostingKey(p: Posting): Id { p.id }
  function CaptureKey(c: CaptureRow): Id { c.id }
  function RefundKey(r: RefundRow): Id { r.id }
  function PayoutKey(p: PayoutRow): Id { p.id }
  function ReservationKey(v: Reservation): Id { v.id }

  // --- immediate constraints -------------------------------------------------------------------

  predicate HasMerchant(merchants: seq<Merchant>, id: Id, org: Id, env: Id) {
    exists m :: m in merchants && m.id == id && m.org == org && m.env == env
  }

  predicate HasAccount(accounts: seq<Account>, id: Id, org: Id, env: Id) {
    exists a :: a in accounts && a.id == id && a.org == org && a.env == env
  }

  predicate HasPayment(payments: seq<Payment>, id: Id, org: Id, env: Id) {
    exists p :: p in payments && p.id == id && p.org == org && p.env == env
  }

  predicate HasOperation(operations: seq<Operation>, id: Id, org: Id, env: Id) {
    exists o :: o in operations && o.id == id && o.org == org && o.env == env
  }

  predicate HasAuthorization(authorizations: seq<Authorization>, id: Id, org: Id, env: Id) {
    exists a :: a in authorizations && a.id == id && a.org == org && a.env == env
  }

  predicate HasJournal(journals: seq<Journal>, id: Id, org: Id, env: Id) {
    exists j :: j in journals && j.id == id && j.org == org && j.env == env
  }

  predicate HasCapture(captures: seq<CaptureRow>, id: Id, org: Id, env: Id) {
    exists c :: c in captures && c.id == id && c.org == org && c.env == env
  }

  predicate HasPayout(payouts: seq<PayoutRow>, id: Id, org: Id, env: Id) {
    exists p :: p in payouts && p.id == id && p.org == org && p.env == env
  }

  predicate SameCodeSlot(a: Account, b: Account) {
    a.org == b.org && a.env == b.env && a.merchant == b.merchant && a.code == b.code
  }

  predicate SameResourceSlot(o: Operation, p: Operation) {
    o.org == p.org && o.env == p.env && o.kind == p.kind && o.resource == p.resource
  }

  predicate SameReferenceSlot(j: Journal, k: Journal) {
    j.org == k.org && j.env == k.env && j.kind == k.kind && j.reference == k.reference
  }

  /** NULL operations never collide. */
  predicate SameOperation(j: Journal, k: Journal) {
    j.operation.Some? && j.operation == k.operation
  }

  predicate AccountsValid(db: Tables) {
    && Unique(db.merchants, MerchantKey)
    && Unique(db.accounts, AccountKey)
    && (forall a, b | a in db.accounts && b in db.accounts && SameCodeSlot(a, b) :: a == b)
    && forall a :: a in db.accounts && a.merchant.Some? ==> HasMerchant(db.merchants, a.merchant.value, a.org, a.env)
  }

  predicate OperationsValid(db: Tables) {
    && Unique(db.payments, PaymentKey)
    && Unique(db.operations, OperationKey)
    && (forall o, p | o in db.operations && p in db.operations && SameResourceSlot(o, p) :: o == p)
    && (forall o :: o in db.operations ==> o.kind.Authorize? || o.kind.Capture? || o.kind.Refund?)
    && forall o :: o in db.operations ==> HasPayment(db.payments, o.payment, o.org, o.env)
  }

  predicate AuthorizationsClash(a: Authorization, b: Authorization) {
    (a.org == b.org && a.payment == b.payment) || a.operation == b.operation
  }

  predicate AuthorizationsValid(db: Tables) {
    && Unique(db.authorizations, AuthorizationKey)
    && (forall a, b | a in db.authorizations && b in db.authorizations && AuthorizationsClash(a, b) :: a == b)
    && (forall a :: a in db.authorizations ==> a.amount > 0)
    && forall a :: a in db.authorizations ==> HasPayment(db.payments, a.payment, a.org, a.env)
  }

  predicate JournalsValid(db: Tables) {
    && Unique(db.journals, JournalKey)
    && (forall j, k | j in db.journals && k in db.journals && SameReferenceSlot(j, k) :: j == k)
    && (forall j, k | j in db.journals && k in db.journals && SameOperation(j, k) :: j == k)
    && (forall j :: j in db.journals ==> j.currency.Inr? && !j.kind.Authorize?)
    && (forall j :: j in db.journals && j.operation.Some? ==>
          HasOperation(db.operations, j.operation.value, j.org, j.env))
    && forall j :: j in db.journals && j.merchant.Some? ==> HasMerchant(db.merchants, j.merchant.value, j.org, j.env)
  }

  predicate PostingsValid(db: Tables) {
    && Unique(db.postings, PostingKey)
    && (forall p :: p in db.postings ==> p.amount > 0 && p.currency.Inr?)
    && (forall p :: p in db.postings ==> HasJournal(db.journals, p.journal, p.org, p.env))
    && forall p :: p in db.postings ==> HasAccount(db.accounts, p.account, p.org, p.env)
  }

  /** One capture per payment, per operation and per journal. */
  predicate CapturesClash(c: CaptureRow, d: CaptureRow) {
    || (c.org == d.org && c.payment == d.payment)
    || c.operation == d.operation
    || (c.journal.Some? && c.journal == d.journal)
  }

  predicate CaptureChecked(c: CaptureRow) {
    c.amount > 0 && (c.status.Succeeded? <==> c.journal.Some?)
  }

  predicate CaptureLinked(db: Tables, c: CaptureRow) {
    && HasPayment(db.payments, c.payment, c.org, c.env)
    && HasAuthorization(db.authorizations, c.authorization, c.org, c.env)
    && (c.journal.Some? ==> HasJournal(db.journals, c.journal.value, c.org, c.env))
  }

  predicate CapturesValid(db: Tables) {
    && Unique(db.captures, CaptureKey)
    && (forall c, d | c in db.captures && d in db.captures && CapturesClash(c, d) :: c == d)
    && (forall c :: c in db.captures ==> CaptureChecked(c))
    && forall c :: c in db.captures ==> CaptureLinked(db, c)
  }

  predicate RefundsClash(r: RefundRow, q: RefundRow) {
    r.operation == q.operation || (r.journal.Some? && r.journal == q.journal)
  }

  predicate RefundChecked(r: RefundRow) {
    r.amount > 0 && (r.status.Succeeded? <==> r.journal.Some?)
  }

  predicate RefundLinked(db: Tables, r: RefundRow) {
    && HasPayment(db.payments, r.payment, r.org, r.env)
    && HasCapture(db.captures, r.capture, r.org, r.env)
    && (r.journal.Some? ==> HasJournal(db.journals, r.journal.value, r.org, r.env))
  }

  predicate RefundsValid(db: Tables) {
    && Unique(db.refunds, RefundKey)
    && (forall r, q | r in db.refunds && q in db.refunds && RefundsClash(r, q) :: r == q)
    && (forall r :: r in db.refunds ==> RefundChecked(r))
    && forall r :: r in db.refunds ==> RefundLinked(db, r)
  }

  predicate SameSequence(v: Reservation, u: Reservation) {
    v.payout == u.payout && v.sequence == u.sequence
  }

  predicate ReservationChecked(v: Reservation) {
    v.sequence > 0 && v.delta != 0
  }

  predicate ReservationLinked(db: Tables, v: Reservation) {
    HasMerchant(db.merchants, v.merchant, v.org, v.env) && HasPayout(db.payouts, v.payout, v.org, v.env)
  }

  predicate ReservationsValid(db: Tables) {
    && Unique(db.payouts, PayoutKey)
    && (forall p :: p in db.payouts ==> HasMerchant(db.merchants, p.merchant, p.org, p.env))
    && Unique(db.reservations, ReservationKey)
    && (forall v, u | v in db.reservations && u in db.reservations && SameSequence(v, u) :: v == u)
    && (forall v :: v in db.reservations ==> ReservationChecked(v))
    && forall v :: v in db.reservations ==> ReservationLinked(db, v)
  }

  /** Primary keys, unique constraints and indexes, CHECKs and the foreign keys that are not deferred. */
  predicate Valid(db: Tables) {
    && AccountsValid(db)
    && OperationsValid(db)
    && AuthorizationsValid(db)
    && JournalsValid(db)
    && PostingsValid(db)
    && CapturesValid(db)
    && RefundsValid(db)
    && ReservationsValid(db)
  }

  /** The foreign keys to `provider_operations` that are INITIALLY DEFERRED. */
  predicate OperationKeysHold(db: Tables) {
    && (forall a :: a in db.authorizations ==> HasOperation(db.operations, a.operation, a.org, a.env))
    && (forall c :: c in db.captures ==> HasOperation(db.operations, c.operation, c.org, c.env))
    && forall r :: r in db.refunds ==> HasOperation(db.operations, r.operation, r.org, r.env)
  }

  // --- statements ------------------------------------------------------------------------------

  datatype Statement =
    | AddMerchant(merchant: Merchant)
    | AddAccount(account: Account)
    | AddPayout(payout: PayoutRow)
    | OnPayments(payment: Change<Payment>)
    | OnOperations(operation: Change<Operation>)
    | OnAuthorizations(authorization: Change<Authorization>)
    | OnJournals(journal: Change<Journal>)
    | OnPostings(posting: Change<Posting>)
    | OnCaptures(capture: Change<CaptureRow>)
    | OnRefunds(refund: Change<RefundRow>)
    | OnReservations(reservation: Change<Reservation>)

  /** `relaypay_prevent_evidence_mutation`: an UPDATE or DELETE that reaches a row raises. */
  predicate BreaksImmutability<T>(rows: seq<T>, key: T -> Id, change: Change<T>) {
    !change.Insert? && MatchesRow(rows, key, change)
  }

  /** The transitions that migration 0019 inlines into its trigger. */
  predicate AllowedTransition(before: PaymentStatus, after: PaymentStatus) {
    match before
    case Created => after.RequiresAction? || after.Authorised? || after.PaymentFailed? || after.Cancelled?
    case RequiresAction => after.Authorised? || after.PaymentFailed? || after.Cancelled? || after.Expired?
    case Authorised => after.Captured? || after.Cancelled? || after.Expired? || after.PaymentFailed?
    case Captured => after.PartiallyRefunded? || after.Refunded?
    case PartiallyRefunded => after.PartiallyRefunded? || after.Refunded?
    case _ => false
  }

  /** `relaypay_enforce_payment_status_transition` raises; an UPDATE that leaves the status out does not fire it. */
  predicate BreaksTransition(payments: seq<Payment>, change: Change<Payment>) {
    change.Update? &&
    var before := Lookup(payments, PaymentKey, change.row.id);
    before.Some? && before.value.status != change.row.status
    && !AllowedTransition(before.value.status, change.row.status)
  }

  /** A queued deferred constraint trigger, with the row image it was queued with. */
  datatype Event =
    | OperationWritten(operation: Operation)
    | CaptureWritten(capture: CaptureRow, inserted: bool)
    | JournalInserted(journal: Journal)
    | PostingInserted(posting: Posting)
    | RefundWritten(refund: RefundRow)
    | ReservationInserted(reservation: Reservation)

  /** A transaction in progress. */
  datatype Work = Work(db: Tables, events: seq<Event>)

  /** An INSERT, or an UPDATE that reaches a row, queues this event. */
  function Queued<T>(rows: seq<T>, key: T -> Id, change: Change<T>, event: Event): seq<Event> {
    if !change.Delete? && MatchesRow(rows, key, change) then [event] else []
  }

  /** The tables and queued events after one statement, before its constraints; None if a row trigger raised. */
  function Apply(w: Work, s: Statement): Option<Work> {
    var db := w.db;
    match s
    case AddMerchant(m) => Some(w.(db := db.(merchants := db.merchants + [m])))
    case AddAccount(a) => Some(w.(db := db.(accounts := db.accounts + [a])))
    case AddPayout(p) => Some(w.(db := db.(payouts := db.payouts + [p])))
    case OnPayments(change) =>
      if BreaksTransition(db.payments, change) then None
      else Some(w.(db := db.(payments := Changed(db.payments, PaymentKey, change))))
    case OnOperations(change) =>
      Some(Work(db.(operations := Changed(db.operations, OperationKey, change)),
                w.events + Queued(db.operations, OperationKey, change, OperationWritten(change.row))))
    case OnAuthorizations(change) =>
      Some(w.(db := db.(authorizations := Changed(db.authorizations, AuthorizationKey, change))))
    case OnJournals(change) =>
      if BreaksImmutability(db.journals, JournalKey, change) then None
      else if change.Insert? then
        Some(Work(db.(journals := db.journals + [change.row]), w.events + [JournalInserted(change.row)]))
      else Some(w)
    case OnPostings(change) =>
      if BreaksImmutability(db.postings, PostingKey, change) then None
      else if change.Insert? then
        Some(Work(db.(postings := db.postings + [change.row]), w.events + [PostingInserted(change.row)]))
      else Some(w)
    case OnCaptures(change) =>
      Some(Work(db.(captures := Changed(db.captures, CaptureKey, change)),
                w.events + Queued(db.captures, CaptureKey, change, CaptureWritten(change.row, change.Insert?))))
    case OnRefunds(change) =>
      Some(Work(db.(refunds := Changed(db.refunds, RefundKey, change)),
                w.events + Queued(db.refunds, RefundKey, change, RefundWritten(change.row))))
    case OnReservations(change) =>
      if BreaksImmutability(db.reservations, ReservationKey, change) then None
      else if change.Insert? then
        Some(Work(db.(reservations := db.reservations + [change.row]), w.events + [ReservationInserted(change.row)]))
      else Some(w)
  }

  /** One statement: row triggers, then every immediate constraint on the resulting tables. */
  function Exec(w: Work, s: Statement): Option<Work> {
    var after := Apply(w, s);
    if after.Some? && Valid(after.value.db) then after else None
  }

  function ExecAll(w: Work, ss: seq<Statement>): Option<Work> {
    if ss == [] then Some(w) else
    var before := ExecAll(w, ss[..|ss| - 1]);
    if before.None? then None else Exec(before.value, ss[|ss| - 1])
  }

  // --- deferred constraint triggers ------------------------------------------------------------

  function DebitOf(journal: Id): Posting -> int {
    (p: Posting) => if p.journal == journal && p.side.Debit? then p.amount else 0
  }

  function CreditOf(journal: Id): Posting -> int {
    (p: Posting) => if p.journal == journal && p.side.Credit? then p.amount else 0
  }

  function CountOf(journal: Id): Posting -> int {
    (p: Posting) => if p.journal == journal then 1 else 0
  }

  function WrongCurrencyOf(journal: Id, currency: Option<Currency>): Posting -> int {
    (p: Posting) => if p.journal == journal && Differs(Some(p.currency), currency).True? then 1 else 0
  }

  function CurrencyOf(db: Tables, journal: Id): Option<Currency> {
    var j := Lookup(db.journals, JournalKey, journal);
    if j.None? then None else Some(j.value.currency)
  }

  /** `relaypay_validate_journal_balance` raises for this journal. */
  predicate BalanceRejects(db: Tables, journal: Id) {
    || Sum(db.postings, CountOf(journal)) < 2
    || Sum(db.postings, DebitOf(journal)) != Sum(db.postings, CreditOf(journal))
    || Sum(db.postings, WrongCurrencyOf(journal, CurrencyOf(db, journal))) != 0
  }

  function ExpectedAmount(db: Tables, j: Journal): Option<int> {
    if j.kind.Capture? then
      var c := Lookup(db.captures, CaptureKey, j.reference);
      if c.None? then None else Some(c.value.amount)
    else
      var r := Lookup(db.refunds, RefundKey, j.reference);
      if r.None? then None else Some(r.value.amount)
  }

  /** `relaypay_validate_journal_operation` raises for this journal. */
  predicate JournalOperationRejects(db: Tables, j: Journal) {
    if j.kind.Compensation? then false else
    var found := if j.operation.None? then None
                 else Lookup(db.operations, OperationKey, j.operation.value);
    var kind := if found.None? then None else Some(found.value.kind);
    var resource := if found.None? then None else Some(found.value.resource);
    var org := if found.None? then None else Some(found.value.org);
    || Or(Or(Differs(kind, Some(j.kind)), Differs(resource, Some(j.reference))), Differs(org, Some(j.org))).True?
    || Differs(Some(Sum(db.postings, DebitOf(j.id))), ExpectedAmount(db, j)).True?
  }

  /** The row with this id in this organisation, as the guards look resources up. */
  function AuthorizationFor(db: Tables, id: Id, org: Id): Option<Authorization> {
    var a := Lookup(db.authorizations, AuthorizationKey, id);
    if a.Some? && a.value.org == org then a else None
  }

  predicate Dead(status: PaymentStatus) {
    status.Cancelled? || status.Expired? || status.PaymentFailed?
  }

  /** `relaypay_validate_capture_command` (migration 0023) raises for this capture image. */
  predicate CaptureRejects(db: Tables, c: CaptureRow, inserted: bool) {
    var a := AuthorizationFor(db, c.authorization, c.org);
    var amount := if a.None? then None else Some(a.value.amount);
    var status := if a.None? then None else Some(a.value.status);
    var p := Lookup(db.payments, PaymentKey, c.payment);
    || Exceeds(Some(c.amount), amount).True?
    || Differs(status, Some(Succeeded)).True?
    || (inserted && p.Some? && p.value.org == c.org && Dead(p.value.status))
  }

  /** `relaypay_validate_provider_operation_resource` raises for this operation image. */
  predicate BindingRejects(db: Tables, o: Operation) {
    match o.kind
    case Authorize => !exists a :: a in db.authorizations && a.id == o.resource && a.org == o.org
                                   && a.payment == o.payment && a.operation == o.id
    case Capture => !exists c :: c in db.captures && c.id == o.resource && c.org == o.org
                                 && c.payment == o.payment && c.operation == o.id
    case Refund => !exists r :: r in db.refunds && r.id == o.resource && r.org == o.org
                                && r.payment == o.payment && r.operation == o.id
    case _ => true
  }

  predicate Live(status: Status) {
    status.Processing? || status.RequiresReview? || status.Succeeded?
  }

  function LiveRefundOf(org: Id, payment: Id): RefundRow -> int {
    (r: RefundRow) => if r.payment == payment && r.org == org && Live(r.status) then r.amount else 0
  }

  /** `relaypay_validate_refund_reservations` raises for this refund image. */
  predicate RefundRejects(db: Tables, r: RefundRow) {
    var c := Lookup(db.captures, CaptureKey, r.capture);
    var found := if c.Some? && c.value.org == r.org then c else None;
    var status := if found.None? then None else Some(found.value.status);
    var amount := if found.None? then None else Some(found.value.amount);
    || Differs(status, Some(Succeeded)).True?
    || Exceeds(Some(Sum(db.refunds, LiveRefundOf(r.org, r.payment))), amount).True?
  }

  function SignedPostingOf(org: Id, account: Id): Posting -> int {
    (p: Posting) =>
      if p.org != org || p.account != account then 0 else if p.side.Credit? then p.amount else -p.amount
  }

  function ReservedOf(merchant: Id): Reservation -> int {
    (v: Reservation) => if v.merchant == merchant then v.delta else 0
  }

  predicate HoldsSlot(a: Account, org: Id, env: Id, merchant: Option<Id>, code: AccountCode) {
    a.org == org && a.env == env && a.merchant == merchant && a.code == code
  }

  /** The account with this code, of this merchant (or of none), in this scope. */
  function AccountFor(accounts: seq<Account>, org: Id, env: Id, merchant: Option<Id>,
                      code: AccountCode): (a: Option<Account>)
    ensures a.Some? ==> a.value in accounts && HoldsSlot(a.value, org, env, merchant, code)
    ensures a.None? ==> forall x :: x in accounts ==> !HoldsSlot(x, org, env, merchant, code)
  {
    Find(accounts, (a: Account) => HoldsSlot(a, org, env, merchant, code))
  }

  function AvailableAccountOf(db: Tables, org: Id, env: Id, merchant: Id): Option<Account> {
    AccountFor(db.accounts, org, env, Some(merchant), AvailablePayable)
  }

  predicate Overdrawn(db: Tables, org: Id, account: Option<Id>, merchant: Id) {
    var available := if account.None? then 0 else Sum(db.postings, SignedPostingOf(org, account.value));
    Sum(db.reservations, ReservedOf(merchant)) > available
  }

  /** `relaypay_validate_payout_coverage` raises for this reservation row. */
  predicate ReservationRejects(db: Tables, v: Reservation) {
    var a := AvailableAccountOf(db, v.org, v.env, v.merchant);
    Overdrawn(db, v.org, if a.None? then None else Some(a.value.id), v.merchant)
  }

  /** `relaypay_validate_payout_coverage` raises for this posting. */
  predicate DebitRejects(db: Tables, p: Posting) {
    var a := Lookup(db.accounts, AccountKey, p.account);
    if !p.side.Debit? || a.None? || !a.value.code.AvailablePayable? || a.value.merchant.None? then false
    else Overdrawn(db, p.org, Some(a.value.id), a.value.merchant.value)
  }

  predicate Rejects(db: Tables, e: Event) {
    match e
    case OperationWritten(o) => BindingRejects(db, o)
    case CaptureWritten(c, inserted) => CaptureRejects(db, c, inserted)
    case JournalInserted(j) => BalanceRejects(db, j.id) || JournalOperationRejects(db, j)
    case PostingInserted(p) => BalanceRejects(db, p.journal) || DebitRejects(db, p)
    case RefundWritten(r) => RefundRejects(db, r)
    case ReservationInserted(v) => ReservationRejects(db, v)
  }

  // --- transactions and runs -------------------------------------------------------------------

  type Transaction = seq<Statement>

  predicate Commits(db: Tables, tx: Transaction) {
    var w := ExecAll(Work(db, []), tx);
    w.Some? && OperationKeysHold(w.value.db) && forall e :: e in w.value.events ==> !Rejects(w.value.db, e)
  }

  /** The committed tables after a transaction: all of its effects, or none. */
  function Committed(db: Tables, tx: Transaction): Tables {
    if Commits(db, tx) then ExecAll(Work(db, []), tx).value.db else db
  }

  function Run(db: Tables, txs: seq<Transaction>): Tables {
    if txs == [] then db else Committed(Run(db, txs[..|txs| - 1]), txs[|txs| - 1])
  }

  lemma {:induction false} ExecAllStopsAtError(w: Work, ss: seq<Statement>, k: nat)
    requires k <= |ss| && ExecAll(w, ss[..k]).None?
    ensures ExecAll(w, ss).None?
  {
    if k < |ss| {
      var front := ss[..|ss| - 1];
      assert front[..k] == ss[..k];
      ExecAllStopsAtError(w, front, k);
      assert ExecAll(w, front).None?;
    } else {
      assert ss[..k] == ss;
    }
  }

  /** Runs the statements in order, stopping at the first error. */
  method RunStatements(start: Work, tx: Transaction) returns (work: Option<Work>)
    ensures work == ExecAll(start, tx)
  {
    work := Some(start);
    for i := 0 to |tx|
      invariant work.Some? && work == ExecAll(start, tx[..i])
    {
      assert tx[..i + 1][..i] == tx[..i];
      work := Exec(work.value, tx[i]);
      if work.None? {
        ExecAllStopsAtError(start, tx, i + 1);
        return;
      }
    }
    assert tx[..|tx|] == tx;
  }

  /** Checks the deferred keys, then fires the deferred triggers in queue order up to the first that raises. */
  method FireDeferred(work: Work) returns (accepted: bool)
    ensures accepted <==> OperationKeysHold(work.db) && forall e :: e in work.events ==> !Rejects(work.db, e)
  {
    if !OperationKeysHold(work.db) {
      return false;
    }
    for k := 0 to |work.events|
      invariant forall e :: e in work.events[..k] ==> !Rejects(work.db, e)
    {
      if Rejects(work.db, work.events[k]) {
        return false;
      }
    }
    return true;
  }

  /** The committed tables, changed only by whole transactions. */
  class Store {
    var tables: Tables

    constructor ()
      ensures tables == EMPTY
    {
      tables := EMPTY;
    }

    method Transact(tx: Transaction) returns (committed: bool)
      modifies this
      ensures committed == Commits(old(tables), tx)
      ensures tables == Committed(old(tables), tx)
    {
      var work := RunStatements(Work(tables, []), tx);
      if work.None? {
        return false;
      }
      committed := FireDeferred(work.value);
      if committed {
        tables := work.value.db;
      }
    }
  }

  // --- what every transaction keeps ------------------------------------------------------------

  /** The evidence tables only grow, and every new row is queued for its deferred checks. */
  ghost predicate Grown(w: Work, v: Work) {
    && w.db.merchants <= v.db.merchants
    && w.db.accounts <= v.db.accounts
    && w.db.journals <= v.db.journals
    && w.db.postings <= v.db.postings
    && w.db.reservations <= v.db.reservations
    && w.events <= v.events
    && (forall i :: |w.db.journals| <= i < |v.db.journals| ==> JournalInserted(v.db.journals[i]) in v.events)
    && (forall i :: |w.db.postings| <= i < |v.db.postings| ==> PostingInserted(v.db.postings[i]) in v.events)
    && (forall i :: |w.db.reservations| <= i < |v.db.reservations|
          ==> ReservationInserted(v.db.reservations[i]) in v.events)
  }

  lemma ApplyGrows(w: Work, s: Statement)
    requires Apply(w, s).Some?
    ensures Grown(w, Apply(w, s).value)
  {
  }

  lemma GrownTransitive(u: Work, v: Work, w: Work)
    requires Grown(u, v) && Grown(v, w)
    ensures Grown(u, w)
  {
  }

  lemma {:induction false} ExecAllGrows(w: Work, ss: seq<Statement>)
    requires ExecAll(w, ss).Some?
    ensures Grown(w, ExecAll(w, ss).value)
  {
    if ss != [] {
      var v := ExecAll(w, ss[..|ss| - 1]).value;
      ExecAllGrows(w, ss[..|ss| - 1]);
      ApplyGrows(v, ss[|ss| - 1]);
      GrownTransitive(w, v, ExecAll(w, ss).value);
    }
  }

  lemma {:induction false} ExecAllValid(w: Work, ss: seq<Statement>)
    requires Valid(w.db) && ExecAll(w, ss).Some?
    ensures Valid(ExecAll(w, ss).value.db)
  {
  }

  lemma {:induction false} RunValid(txs: seq<Transaction>)
    ensures Valid(Run(EMPTY, txs)) && OperationKeysHold(Run(EMPTY, txs))
  {
    if txs != [] {
      var before := Run(EMPTY, txs[..|txs| - 1]);
      RunValid(txs[..|txs| - 1]);
      var tx := txs[|txs| - 1];
      if Commits(before, tx) {
        ExecAllValid(Work(before, []), tx);
      }
    }
  }

  /** A table extended by rows that do not contribute keeps its sum. */
  lemma SumUnchanged<T>(before: seq<T>, after: seq<T>, f: T -> int)
    requires before <= after
    requires forall i :: |before| <= i < |after| ==> f(after[i]) == 0
    ensures Sum(after, f) == Sum(before, f)
  {
    var added := after[|before|..];
    assert after == before + added;
    SumAppend(before, added, f);
    SumZero(added, f);
  }
}
