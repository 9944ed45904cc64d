/**
 Migration 0006: every organisation gets a TEST and a LIVE_LIKE environment, every tenant row is
 backfilled to its organisation's TEST environment, and the organisation-scoped foreign keys become
 (organisation, environment, id) foreign keys. The md5-derived environment ids are parameters.
 */
module ScopeMigration {
  import opened Basics

  datatype Table =
    | Customers | PaymentIntents | LedgerAccounts | ProviderOperations | ProviderAttempts | OperationHistory
    | IdempotencyRecords | Authorizations | Captures | Refunds | Journals | Postings | WebhookEndpoints
    | WebhookEndpointVersions | MerchantEvents | EventRecipients | WebhookDeliveries | WebhookDeliveryAttempts
    | ScenarioRuns

  /** A row of any tenant table; a NULL reference is absent from `refs`. */
  datatype Row = Row(table: Table, id: Id, org: Id, env: Option<Id>, refs: map<string, Id>)

  datatype Relation = Relation(source: Table, target: Table, column: string)

  datatype EnvironmentType = Test | LiveLike
  datatype Environment = Environment(id: Id, org: Id, kind: EnvironmentType)

  const ENVIRONMENT_TABLES: seq<Table> := [
    Customers, PaymentIntents, LedgerAccounts, ProviderOperations, ProviderAttempts, OperationHistory,
    IdempotencyRecords, Authorizations, Captures, Refunds, Journals, Postings, WebhookEndpoints,
    WebhookEndpointVersions, MerchantEvents, EventRecipients, WebhookDeliveries, WebhookDeliveryAttempts,
    ScenarioRuns]

  const SCOPE_RELATIONSHIPS: seq<Relation> := [
    Relation(PaymentIntents, Customers, "customer_id"),
    Relation(ProviderOperations, PaymentIntents, "payment_intent_id"),
    Relation(ProviderAttempts, ProviderOperations, "provider_operation_id"),
    Relation(OperationHistory, ProviderOperations, "provider_operation_id"),
    Relation(OperationHistory, ProviderAttempts, "evidence_attempt_id"),
    Relation(IdempotencyRecords, ProviderOperations, "provider_operation_id"),
    Relation(Authorizations, PaymentIntents, "payment_intent_id"),
    Relation(Authorizations, ProviderOperations, "provider_operation_id"),
    Relation(Captures, PaymentIntents, "payment_intent_id"),
    Relation(Captures, Authorizations, "authorization_id"),
    Relation(Captures, ProviderOperations, "provider_operation_id"),
    Relation(Captures, Journals, "journal_id"),
    Relation(Refunds, PaymentIntents, "payment_intent_id"),
    Relation(Refunds, Captures, "capture_id"),
    Relation(Refunds, ProviderOperations, "provider_operation_id"),
    Relation(Refunds, Journals, "journal_id"),
    Relation(Journals, ProviderOperations, "provider_operation_id"),
    Relation(Postings, Journals, "journal_id"),
    Relation(Postings, LedgerAccounts, "account_id"),
    Relation(WebhookEndpointVersions, WebhookEndpoints, "webhook_endpoint_id"),
    Relation(MerchantEvents, PaymentIntents, "payment_intent_id"),
    Relation(MerchantEvents, ProviderOperations, "provider_operation_id"),
    Relation(EventRecipients, MerchantEvents, "merchant_event_id"),
    Relation(EventRecipients, WebhookEndpointVersions, "endpoint_version_id"),
    Relation(WebhookDeliveries, EventRecipients, "event_recipient_id"),
    Relation(WebhookDeliveries, WebhookDeliveries, "replay_of_delivery_id"),
    Relation(WebhookDeliveryAttempts, WebhookDeliveries, "webhook_delivery_id"),
    Relation(ScenarioRuns, PaymentIntents, "payment_intent_id")]

  /** The row refers to the other along this relation. */
  predicate Refers(r: Row, t: Row, rel: Relation) {
    r.table == rel.source && t.table == rel.target && rel.column in r.refs && r.refs[rel.column] == t.id
  }

  predicate Dangling(rows: seq<Row>, r: Row, rel: Relation) {
    r.table == rel.source && rel.column in r.refs
    && !exists t :: t in rows && Refers(r, t, rel) && t.org == r.org && t.env == r.env
  }

  /** `FOREIGN KEY (organisation_id, environment_id, column) REFERENCES target (organisation_id, environment_id, id)` */
  predicate ScopedKeyHolds(rows: seq<Row>, rel: Relation) {
    forall r :: r in rows ==> !Dangling(rows, r, rel)
  }

  /** Every scoped key of the migrated schema. */
  predicate AllScoped(rows: seq<Row>) {
    forall rel :: rel in SCOPE_RELATIONSHIPS ==> ScopedKeyHolds(rows, rel)
  }

  // --- the schema before -----------------------------------------------------------------------

  /** `FOREIGN KEY (organisation_id, column) REFERENCES target (organisation_id, id)` */
  predicate OrganisationKeyHolds(rows: seq<Row>, rel: Relation) {
    forall r :: r in rows && r.table == rel.source && rel.column in r.refs ==>
      exists t :: t in rows && Refers(r, t, rel) && t.org == r.org
  }

  predicate PrimaryKeys(rows: seq<Row>) {
    forall r, t :: r in rows && t in rows && r.table == t.table && r.id == t.id ==> r == t
  }

  /** Any state of the schema before the migration; no row has an environment yet. */
  predicate Before(rows: seq<Row>) {
    && PrimaryKeys(rows)
    && (forall r :: r in rows ==> r.env.None?)
    && (forall rel :: rel in SCOPE_RELATIONSHIPS ==> OrganisationKeyHolds(rows, rel))
  }

  // --- the migration ---------------------------------------------------------------------------

  function EnvironmentsFor(test: Id -> Id, live: Id -> Id, orgs: seq<Id>): (envs: seq<Environment>)
    ensures forall e :: e in envs ==> e.org in orgs && (e.kind.Test? ==> e.id == test(e.org))
    ensures forall o :: o in orgs ==> Environment(test(o), o, Test) in envs
  {
    if orgs == [] then [] else
    var o := orgs[|orgs| - 1];
    assert forall x :: x in orgs <==> x in orgs[..|orgs| - 1] || x == o;
    EnvironmentsFor(test, live, orgs[..|orgs| - 1])
    + [Environment(test(o), o, Test), Environment(live(o), o, LiveLike)]
  }

  function TestEnvironment(envs: seq<Environment>, org: Id): (e: Option<Id>)
    ensures e.Some? ==> Environment(e.value, org, Test) in envs
    ensures e.None? ==> forall x :: x in envs ==> !(x.org == org && x.kind.Test?)
  {
    if envs == [] then None else
    var last := envs[|envs| - 1];
    if last.org == org && last.kind.Test? then Some(last.id) else TestEnvironment(envs[..|envs| - 1], org)
  }

  /** The backfill of one row: an organisation without a TEST environment leaves it NULL. */
  function Filled(envs: seq<Environment>, r: Row): Row {
    var e := TestEnvironment(envs, r.org);
    if e.None? then r else r.(env := e)
  }

  /** `UPDATE <table> SET environment_id = ...`, then `SET NOT NULL`: false when a NULL is left. */
  method BackfillTable(rows: seq<Row>, table: Table, envs: seq<Environment>) returns (after: seq<Row>, complete: bool)
    ensures |after| == |rows|
    ensures forall i :: 0 <= i < |rows| ==>
            after[i] == if rows[i].table == table then Filled(envs, rows[i]) else rows[i]
    ensures complete <==> forall i :: 0 <= i < |rows| && rows[i].table == table ==> after[i].env.Some?
  {
    after := [];
    complete := true;
    for i := 0 to |rows|
      invariant |after| == i
      invariant forall k :: 0 <= k < i ==> after[k] == if rows[k].table == table then Filled(envs, rows[k]) else rows[k]
      invariant complete <==> forall k :: 0 <= k < i && rows[k].table == table ==> after[k].env.Some?
    {
      var row := if rows[i].table == table then Filled(envs, rows[i]) else rows[i];
      if rows[i].table == table && row.env.None? {
        complete := false;
      }
      after := after + [row];
    }
  }

  /** The rows of these tables are filled and the rest are untouched. */
  ghost predicate FilledIn(tables: seq<Table>, rows: seq<Row>, after: seq<Row>, envs: seq<Environment>) {
    && |after| == |rows|
    && forall i :: 0 <= i < |rows| ==>
         after[i] == if rows[i].table in tables then Filled(envs, rows[i]) else rows[i]
  }

  lemma EveryTableListed(t: Table)
    ensures t in ENVIRONMENT_TABLES
  {
    assert ENVIRONMENT_TABLES[0] == Customers && ENVIRONMENT_TABLES[1] == PaymentIntents;
    assert ENVIRONMENT_TABLES[2] == LedgerAccounts && ENVIRONMENT_TABLES[3] == ProviderOperations;
    assert ENVIRONMENT_TABLES[4] == ProviderAttempts && ENVIRONMENT_TABLES[5] == OperationHistory;
    assert ENVIRONMENT_TABLES[6] == IdempotencyRecords && ENVIRONMENT_TABLES[7] == Authorizations;
    assert ENVIRONMENT_TABLES[8] == Captures && ENVIRONMENT_TABLES[9] == Refunds;
    assert ENVIRONMENT_TABLES[10] == Journals && ENVIRONMENT_TABLES[11] == Postings;
    assert ENVIRONMENT_TABLES[12] == WebhookEndpoints && ENVIRONMENT_TABLES[13] == WebhookEndpointVersions;
    assert ENVIRONMENT_TABLES[14] == MerchantEvents && ENVIRONMENT_TABLES[15] == EventRecipients;
    assert ENVIRONMENT_TABLES[16] == WebhookDeliveries && ENVIRONMENT_TABLES[17] == WebhookDeliveryAttempts;
    assert ENVIRONMENT_TABLES[18] == ScenarioRuns;
  }

  /** All tables in order, or failure at the first that still holds a NULL. */
  method BackfillAll(tables: seq<Table>, rows: seq<Row>, envs: seq<Environment>) returns (after: Option<seq<Row>>)
    requires forall i :: 0 <= i < |rows| ==> rows[i].env.None? && rows[i].table in tables
    ensures after.Some? <==> forall i :: 0 <= i < |rows| ==> TestEnvironment(envs, rows[i].org).Some?
    ensures after.Some? ==> |after.value| == |rows|
    ensures after.Some? ==> forall i :: 0 <= i < |rows| ==> after.value[i] == Filled(envs, rows[i])
  {
    var current := rows;
    for n := 0 to |tables|
      invariant FilledIn(tables[..n], rows, current, envs)
      invariant forall i | 0 <= i < |rows| && rows[i].table in tables[..n] :: TestEnvironment(envs, rows[i].org).Some?
    {
      assert tables[..n + 1] == tables[..n] + [tables[n]];
      var complete;
      current, complete := BackfillTable(current, tables[n], envs);
      if !complete {
        return None;
      }
    }
    assert tables[..|tables|] == tables;
    return Some(current);
  }

  /** `ADD FOREIGN KEY` for every relation, stopping at the first that existing rows violate. */
  method AddScopedKeys(relations: seq<Relation>, rows: seq<Row>) returns (added: bool)
    ensures added <==> forall rel :: rel in relations ==> ScopedKeyHolds(rows, rel)
  {
    for n := 0 to |relations|
      invariant forall k :: 0 <= k < n ==> ScopedKeyHolds(rows, relations[k])
    {
      if !ScopedKeyHolds(rows, relations[n]) {
        return false;
      }
    }
    return true;
  }

  /**
   The migration succeeds exactly when every row's organisation exists (some tables, such as
   ledger_accounts, have no foreign key that would guarantee it), and then every scoped key holds.
   */
  method Upgrade(test: Id -> Id, live: Id -> Id, orgs: seq<Id>, rows: seq<Row>) returns (after: Option<seq<Row>>)
    requires Before(rows)
    ensures after.Some? <==> forall r :: r in rows ==> r.org in orgs
    ensures after.Some? ==> |after.value| == |rows|
    ensures after.Some? ==> forall i :: 0 <= i < |rows| ==> after.value[i] == rows[i].(env := Some(test(rows[i].org)))
    ensures after.Some? ==> AllScoped(after.value)
  {
    var envs := EnvironmentsFor(test, live, orgs);
    forall org: Id ensures TestEnvironment(envs, org) == if org in orgs then Some(test(org)) else None {
      TestEnvironmentFound(test, live, orgs, org);
    }
    forall i | 0 <= i < |rows| ensures rows[i].table in ENVIRONMENT_TABLES && rows[i] in rows {
      EveryTableListed(rows[i].table);
    }
    after := BackfillAll(ENVIRONMENT_TABLES, rows, envs);
    if after.None? {
      return;
    }
    BackfillScopesKeys(test, rows, after.value);
    var added := AddScopedKeys(SCOPE_RELATIONSHIPS, after.value);
    if !added {
      assert false;
    }
  }

  lemma TestEnvironmentFound(test: Id -> Id, live: Id -> Id, orgs: seq<Id>, org: Id)
    ensures TestEnvironment(EnvironmentsFor(test, live, orgs), org) == if org in orgs then Some(test(org)) else None
  {
  }

  // --- why the keys hold -----------------------------------------------------------------------

  /** Two rows of one organisation get the same environment, so an organisation key becomes a scoped key. */
  lemma {:induction false} BackfillScopesKeys(test: Id -> Id, rows: seq<Row>, after: seq<Row>)
    requires Before(rows) && |after| == |rows|
    requires forall i :: 0 <= i < |rows| ==> after[i] == rows[i].(env := Some(test(rows[i].org)))
    ensures AllScoped(after)
  {
    forall rel, r | rel in SCOPE_RELATIONSHIPS && r in after ensures !Dangling(after, r, rel) {
      if r.table == rel.source && rel.column in r.refs {
        var i :| 0 <= i < |after| && after[i] == r;
        assert rows[i] in rows && OrganisationKeyHolds(rows, rel);
        var t :| t in rows && Refers(rows[i], t, rel) && t.org == rows[i].org;
        var k :| 0 <= k < |rows| && rows[k] == t;
        assert after[k] in after && Refers(r, after[k], rel);
      }
    }
  }

  // --- and what they give ----------------------------------------------------------------------

  predicate Linked(r: Row, t: Row) {
    exists rel :: rel in SCOPE_RELATIONSHIPS && Refers(r, t, rel)
  }

  /** A walk along references, of any length, through the rows of the database. */
  predicate Chain(rows: seq<Row>, path: seq<Row>) {
    && (forall i :: 0 <= i < |path| ==> path[i] in rows)
    && (forall i :: 0 < i < |path| ==> Linked(path[i - 1], path[i]))
  }

  lemma LinkStaysInScope(rows: seq<Row>, r: Row, t: Row)
    requires PrimaryKeys(rows) && AllScoped(rows) && r in rows && t in rows && Linked(r, t)
    ensures t.org == r.org && t.env == r.env
  {
    var rel :| rel in SCOPE_RELATIONSHIPS && Refers(r, t, rel);
    KeyTarget(rows, r, t, rel);
  }

  lemma KeyTarget(rows: seq<Row>, r: Row, t: Row, rel: Relation)
    requires PrimaryKeys(rows) && ScopedKeyHolds(rows, rel) && r in rows && t in rows && Refers(r, t, rel)
    ensures t.org == r.org && t.env == r.env
  {
    assert !Dangling(rows, r, rel);
  }

  /** With the scoped keys in place, no chain of references leaves its organisation and environment. */
  lemma {:induction false} ChainsStayInScope(rows: seq<Row>, path: seq<Row>, i: nat)
    requires PrimaryKeys(rows) && AllScoped(rows) && Chain(rows, path) && i < |path|
    ensures path[i].org == path[0].org && path[i].env == path[0].env
  {
    if i > 0 {
      ChainsStayInScope(rows, path, i - 1);
      LinkStaysInScope(rows, path[i - 1], path[i]);
    }
  }

  /** Backfilled rows keep their primary keys, so chains of the migrated database stay in scope. */
  lemma MigratedChainsStayInScope(test: Id -> Id, rows: seq<Row>, after: seq<Row>, path: seq<Row>)
    requires Before(rows) && |after| == |rows|
    requires forall i :: 0 <= i < |rows| ==> after[i] == rows[i].(env := Some(test(rows[i].org)))
    requires Chain(after, path) && path != []
    ensures forall i :: 0 <= i < |path| ==> path[i].org == path[0].org && path[i].env == Some(test(path[0].org))
  {
    BackfillScopesKeys(test, rows, after);
    forall r, t | r in after && t in after && r.table == t.table && r.id == t.id ensures r == t {
      var i :| 0 <= i < |after| && after[i] == r;
      var k :| 0 <= k < |after| && after[k] == t;
      assert rows[i] in rows && rows[k] in rows;
    }
    assert path[0] in after;
    forall i | 0 <= i < |path| ensures path[i].org == path[0].org && path[i].env == path[0].env {
      ChainsStayInScope(after, path, i);
    }
  }
}
