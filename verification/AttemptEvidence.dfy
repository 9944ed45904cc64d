/**
 `provider_attempts`: the record of every call to the payment provider (migrations 0002 and 0027).
 A row trigger lets a row be completed once and refuses deletes; partial unique indexes allow one
 MUTATION per operation and record each webhook payload once per operation.
 */
module AttemptEvidence {
  import opened Basics
  import opened Rows

  datatype AttemptKind = Mutation | LookupCall | Webhook
  datatype AttemptState = Sent | ResponseReceived | TransportError | ValidationRejected

  datatype Attempt = Attempt(
    id: Id,
    org: Id,
    operation: Id,
    sequence: int,
    kind: AttemptKind,
    state: AttemptState,
    requestDigest: nat,
    startedAt: nat,
    completedAt: Option<nat>,
    responseDigest: Option<nat>)

  /** The columns the guard holds fixed. */
  predicate SameIdentity(a: Attempt, b: Attempt) {
    && a.org == b.org && a.operation == b.operation && a.sequence == b.sequence
    && a.kind == b.kind && a.requestDigest == b.requestDigest && a.startedAt == b.startedAt
  }

  /** `relaypay_guard_provider_attempt_update` lets the update through. */
  predicate GuardAllows(before: Attempt, after: Attempt) {
    && SameIdentity(after, before)
    && before.completedAt.None? && before.state.Sent?
    && !after.state.Sent? && after.completedAt.Some?
  }

  predicate Settled(a: Attempt) {
    a.completedAt.Some? || !a.state.Sent?
  }

  predicate SamePayload(a: Attempt, b: Attempt) {
    && a.kind.Webhook? && b.kind.Webhook? && a.operation == b.operation
    && a.responseDigest.Some? && a.responseDigest == b.responseDigest
  }

  /** Two rows may not stand in the table together. */
  predicate Collide(a: Attempt, b: Attempt) {
    || a.id == b.id
    || (a.operation == b.operation && a.sequence == b.sequence)
    || (a.kind.Mutation? && b.kind.Mutation? && a.operation == b.operation)
    || SamePayload(a, b)
  }

  predicate Valid(rows: seq<Attempt>) {
    && (forall i :: 0 <= i < |rows| ==> rows[i].sequence > 0)
    && (forall i, j :: 0 <= i < j < |rows| ==> !Collide(rows[i], rows[j]))
  }

  /** UPDATE and DELETE address one row by its id; an UPDATE may write any column, the id included. */
  datatype Write = Insert(row: Attempt) | Update(id: Id, row: Attempt) | Delete(id: Id)

  function AttemptKey(a: Attempt): Id { a.id }

  /** The table after a write, or None if a trigger or constraint raised. */
  function Written(rows: seq<Attempt>, w: Write): Option<seq<Attempt>> {
    match w
    case Insert(row) =>
      var after := rows + [row];
      if Valid(after) then Some(after) else None
    case Update(id, row) =>
      var i := Position(rows, AttemptKey, id);
      if i.None? then Some(rows)
      else if !GuardAllows(rows[i.value], row) then None
      else
        var after := rows[i.value := row];
        if Valid(after) then Some(after) else None
    case Delete(id) =>
      if Position(rows, AttemptKey, id).None? then Some(rows) else None
  }

  /** Any run of writes; refused ones change nothing. */
  function Run(ws: seq<Write>): seq<Attempt> {
    if ws == [] then [] else
    var rows := Run(ws[..|ws| - 1]);
    var after := Written(rows, ws[|ws| - 1]);
    if after.None? then rows else after.value
  }

  // --- what every run keeps --------------------------------------------------------------------

  /** Rows stay, in place, with their identity; a settled row never changes again. */
  ghost predicate Continues(before: seq<Attempt>, after: seq<Attempt>) {
    && |before| <= |after|
    && (forall i :: 0 <= i < |before| ==> SameIdentity(before[i], after[i]))
    && (forall i :: 0 <= i < |before| && Settled(before[i]) ==> after[i] == before[i])
  }

  /** Only the image a write leaves behind is compared with the other rows. */
  predicate Clear(rows: seq<Attempt>, row: Attempt, except: Option<nat>) {
    row.sequence > 0 && forall i :: 0 <= i < |rows| && except != Some(i) ==> !Collide(rows[i], row)
  }

  /** Checking the new image against the others decides as checking the whole table would. */
  lemma ClearIsValid(rows: seq<Attempt>, row: Attempt, except: Option<nat>)
    requires Valid(rows) && (except.Some? ==> except.value < |rows|)
    ensures Clear(rows, row, except) <==> Valid(if except.None? then rows + [row] else rows[except.value := row])
  {
    var after := if except.None? then rows + [row] else rows[except.value := row];
    var k := if except.None? then |rows| else except.value;
    assert after[k] == row;
    if Valid(after) {
      forall i | 0 <= i < |rows| && except != Some(i) ensures !Collide(rows[i], row) {
        assert after[i] == rows[i];
        assert if i < k then !Collide(after[i], after[k]) else !Collide(after[k], after[i]);
      }
    }
  }

  /**
   Exactly which rows may be added, column by column: a positive sequence, a new id, a new place in the
   operation's sequence, no second MUTATION of the operation and no webhook payload it has recorded.
   */
  lemma InsertAcceptedExactly(rows: seq<Attempt>, row: Attempt)
    requires Valid(rows)
    ensures Written(rows, Write.Insert(row)).Some? <==>
              && row.sequence > 0
              && forall i :: 0 <= i < |rows| ==>
                   && rows[i].id != row.id
                   && (rows[i].operation == row.operation ==>
                         && rows[i].sequence != row.sequence
                         && !(rows[i].kind == Mutation && row.kind == Mutation)
                         && !(rows[i].kind == Webhook && row.kind == Webhook && row.responseDigest.Some?
                              && rows[i].responseDigest == row.responseDigest))
    ensures Written(rows, Write.Insert(row)).Some? ==> Written(rows, Write.Insert(row)).value == rows + [row]
  {
    ClearIsValid(rows, row, None);
  }

  lemma FoundAt(rows: seq<Attempt>, id: Id, k: nat)
    requires k < |rows| && rows[k].id == id
    ensures Position(rows, AttemptKey, id).Some?
    ensures Valid(rows) ==> Position(rows, AttemptKey, id) == Some(k)
  {
    var i := Position(rows, AttemptKey, id);
    assert rows[k] in rows && AttemptKey(rows[k]) == id;
    assert Valid(rows) && i.value < k ==> !Collide(rows[i.value], rows[k]);
    assert Valid(rows) && k < i.value ==> !Collide(rows[k], rows[i.value]);
  }

  /**
   Exactly which updates of an attempt are accepted, column by column: the identifying columns stay, a SENT
   attempt without a completion time gets a final state and a completion time, and the new row collides with
   no other.
   */
  lemma UpdateAcceptedExactly(rows: seq<Attempt>, id: Id, row: Attempt, k: nat)
    requires Valid(rows) && k < |rows| && rows[k].id == id
    ensures Written(rows, Write.Update(id, row)).Some? <==>
              && row.org == rows[k].org && row.operation == rows[k].operation && row.sequence == rows[k].sequence
              && row.kind == rows[k].kind && row.requestDigest == rows[k].requestDigest
              && row.startedAt == rows[k].startedAt
              && rows[k].state == Sent && rows[k].completedAt == None
              && (row.state == ResponseReceived || row.state == TransportError || row.state == ValidationRejected)
              && row.completedAt.Some?
              && forall i :: 0 <= i < |rows| && i != k ==>
                   && rows[i].id != row.id
                   && (rows[i].operation == row.operation ==>
                         && rows[i].sequence != row.sequence
                         && !(rows[i].kind == Mutation && row.kind == Mutation)
                         && !(rows[i].kind == Webhook && row.kind == Webhook && row.responseDigest.Some?
                              && rows[i].responseDigest == row.responseDigest))
    ensures Written(rows, Write.Update(id, row)).Some? ==> Written(rows, Write.Update(id, row)).value == rows[k := row]
  {
    FoundAt(rows, id, k);
    ClearIsValid(rows, row, Some(k));
    assert rows[k].sequence > 0;
  }

  /** A delete is refused exactly when the attempt is there, and changes nothing otherwise. */
  lemma DeleteRefusedExactly(rows: seq<Attempt>, id: Id)
    ensures Written(rows, Write.Delete(id))
         == if exists i :: 0 <= i < |rows| && rows[i].id == id then None else Some(rows)
  {
    if k :| 0 <= k < |rows| && rows[k].id == id {
      FoundAt(rows, id, k);
    }
  }

  class AttemptTable {
    var rows: seq<Attempt>

    constructor ()
      ensures rows == []
    {
      rows := [];
    }

    /** One statement: the row trigger, then the constraints on the row image it leaves. */
    method Execute(w: Write) returns (accepted: bool)
      requires Valid(rows)
      modifies this
      ensures Valid(rows) && Continues(old(rows), rows)
      ensures accepted == Written(old(rows), w).Some?
      ensures accepted ==> rows == Written(old(rows), w).value
      ensures !accepted || w.Delete? ==> rows == old(rows)
      ensures w.Insert? ==>
                (accepted <==>
                 && w.row.sequence > 0
                 && forall i :: 0 <= i < |old(rows)| ==>
                      && old(rows)[i].id != w.row.id
                      && (old(rows)[i].operation == w.row.operation ==>
                            && old(rows)[i].sequence != w.row.sequence
                            && !(old(rows)[i].kind == Mutation && w.row.kind == Mutation)
                            && !(old(rows)[i].kind == Webhook && w.row.kind == Webhook && w.row.responseDigest.Some?
                                 && old(rows)[i].responseDigest == w.row.responseDigest)))
      ensures w.Update? ==> forall k :: 0 <= k < |old(rows)| && old(rows)[k].id == w.id ==>
                var r := old(rows)[k];
                (accepted <==>
                 && w.row.org == r.org && w.row.operation == r.operation && w.row.sequence == r.sequence
                 && w.row.kind == r.kind && w.row.requestDigest == r.requestDigest && w.row.startedAt == r.startedAt
                 && r.state == Sent && r.completedAt == None
                 && w.row.state in {ResponseReceived, TransportError, ValidationRejected} && w.row.completedAt.Some?
                 && forall i :: 0 <= i < |old(rows)| && i != k ==>
                      && old(rows)[i].id != w.row.id
                      && (old(rows)[i].operation == w.row.operation ==>
                            && old(rows)[i].sequence != w.row.sequence
                            && !(old(rows)[i].kind == Mutation && w.row.kind == Mutation)
                            && !(old(rows)[i].kind == Webhook && w.row.kind == Webhook && w.row.responseDigest.Some?
                                 && old(rows)[i].responseDigest == w.row.responseDigest)))
      ensures w.Delete? ==> (accepted <==> forall i :: 0 <= i < |old(rows)| ==> old(rows)[i].id != w.id)
    {
      match w {
        case Insert(row) =>
          ClearIsValid(rows, row, None);
          InsertAcceptedExactly(rows, row);
          accepted := Clear(rows, row, None);
          if accepted {
            rows := rows + [row];
          }
        case Update(id, row) =>
          var i := Position(rows, AttemptKey, id);
          if i.None? {
            assert forall k :: 0 <= k < |rows| ==> AttemptKey(rows[k]) != id;
            accepted := true;
          } else {
            ClearIsValid(rows, row, i);
            forall k | 0 <= k < |rows| && rows[k].id == id ensures i == Some(k) {
              FoundAt(rows, id, k);
            }
            UpdateAcceptedExactly(rows, id, row, i.value);
            accepted := GuardAllows(rows[i.value], row) && Clear(rows, row, i);
            if accepted {
              rows := rows[i.value := row];
            }
          }
        case Delete(id) =>
          DeleteRefusedExactly(rows, id);
          accepted := Position(rows, AttemptKey, id).None?;
      }
    }
  }

  lemma {:induction false} RunIsValid(ws: seq<Write>)
    ensures Valid(Run(ws))
  {
    if ws != [] {
      RunIsValid(ws[..|ws| - 1]);
    }
  }

  /** At no time does an operation have two MUTATION attempts. */
  lemma {:induction false} OneMutationPerOperation(ws: seq<Write>)
    ensures var rows := Run(ws);
            forall i, j :: 0 <= i < j < |rows| && rows[i].kind.Mutation? && rows[j].kind.Mutation?
                           ==> rows[i].operation != rows[j].operation
  {
    RunIsValid(ws);
    var rows := Run(ws);
    assert forall i, j :: 0 <= i < j < |rows| ==> !Collide(rows[i], rows[j]);
  }

  /** A webhook payload stands at most once under an operation. */
  lemma {:induction false} OnePayloadPerOperation(ws: seq<Write>)
    ensures var rows := Run(ws);
            forall i, j :: 0 <= i < j < |rows| && rows[i].kind.Webhook? && rows[j].kind.Webhook?
                           && rows[i].operation == rows[j].operation && rows[i].responseDigest.Some?
                           ==> rows[i].responseDigest != rows[j].responseDigest
  {
    RunIsValid(ws);
    var rows := Run(ws);
    assert forall i, j :: 0 <= i < j < |rows| ==> !Collide(rows[i], rows[j]);
  }

  /** Evidence is append-only up to one completion: whatever follows, nothing is lost or rewritten. */
  lemma {:induction false} EvidenceIsKept(ws: seq<Write>, more: seq<Write>)
    ensures Continues(Run(ws), Run(ws + more))
  {
    if more == [] {
      assert ws + more == ws;
    } else {
      var n := |more| - 1;
      EvidenceIsKept(ws, more[..n]);
      assert (ws + more)[..|ws + more| - 1] == ws + more[..n];
    }
  }

  /** How often the run actually updated the row at position `i`. */
  function UpdatesOf(ws: seq<Write>, i: nat): nat {
    if ws == [] then 0 else
    var before := Run(ws[..|ws| - 1]);
    var w := ws[|ws| - 1];
    UpdatesOf(ws[..|ws| - 1], i) + if Updates(before, w, i) then 1 else 0
  }

  predicate Updates(rows: seq<Attempt>, w: Write, i: nat) {
    w.Update? && Position(rows, AttemptKey, w.id) == Some(i) && Written(rows, w).Some?
  }

  /** An accepted update settles its row; every other row keeps its value. */
  lemma OneWrite(rows: seq<Attempt>, w: Write, i: nat)
    requires i < |rows| && Written(rows, w).Some?
    ensures var after := Written(rows, w).value;
            && i < |after|
            && (if Updates(rows, w, i) then !Settled(rows[i]) && Settled(after[i]) else after[i] == rows[i])
  {
  }

  /** Each row is updated at most once, and that update took it from SENT to a completed state. */
  lemma {:induction false} UpdatedAtMostOnce(ws: seq<Write>, i: nat)
    ensures UpdatesOf(ws, i) <= 1
    ensures UpdatesOf(ws, i) == 1 ==> i < |Run(ws)| && !Run(ws)[i].state.Sent? && Run(ws)[i].completedAt.Some?
  {
    if ws != [] {
      UpdatedAtMostOnce(ws[..|ws| - 1], i);
    }
  }

  /** Conversely, a completed row that was inserted as SENT was updated exactly once. */
  lemma {:induction false} CompletionIsOneUpdate(ws: seq<Write>, more: seq<Write>, i: nat)
    requires i < |Run(ws)| && !Settled(Run(ws)[i])
    ensures i < |Run(ws + more)|
    ensures Settled(Run(ws + more)[i]) <==> UpdatesOf(ws + more, i) == UpdatesOf(ws, i) + 1
    ensures !Settled(Run(ws + more)[i]) <==> UpdatesOf(ws + more, i) == UpdatesOf(ws, i)
  {
    if more == [] {
      assert ws + more == ws;
    } else {
      var n := |more| - 1;
      CompletionIsOneUpdate(ws, more[..n], i);
      assert (ws + more)[..|ws + more| - 1] == ws + more[..n];
      if Written(Run(ws + more[..n]), more[n]).Some? {
        OneWrite(Run(ws + more[..n]), more[n], i);
      }
    }
  }
}
