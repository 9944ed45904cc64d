/**
 The pagination cursor: a canonical JSON payload and its MAC, each in unpadded URL-safe base64,
 joined by a dot. The digest, the MAC and the datetime text forms are parameters.
 */
module Cursor {
  import opened Basics
  import opened Json
  import JsonText
  import opened Utf8
  import Base64Url
  import Fingerprint

  datatype Position<T> = Position(createdAt: T, identifier: string)

  /** sha256 in hex, HMAC by key and message, `isoformat` and `fromisoformat`. */
  datatype Primitives<!T> = Primitives(
    sha: seq<Byte> -> string,
    mac: (seq<Byte>, seq<Byte>) -> seq<Byte>,
    iso: T -> string,
    fromIso: string -> Option<T>)

  function FilterFingerprint<T>(p: Primitives<T>, filters: Members): string {
    p.sha(Fingerprint.CanonicalBytes(Object(filters)))
  }

  function Payload<T>(p: Primitives<T>, at: Position<T>, filters: Members): Members {
    Member("v", Number(1),
    Member("createdAt", String(p.iso(at.createdAt)),
    Member("id", String(at.identifier),
    Member("filters", String(FilterFingerprint(p, filters)), NoMembers))))
  }

  function PayloadBytes<T>(p: Primitives<T>, at: Position<T>, filters: Members): seq<Byte> {
    Fingerprint.CanonicalBytes(Object(Payload(p, at, filters)))
  }

  function EncodeCursor<T>(p: Primitives<T>, at: Position<T>, filters: Members, secret: string): string {
    var payload := PayloadBytes(p, at, filters);
    Base64Url.Encode(payload) + "." + Base64Url.Encode(p.mac(Utf8.Encode(secret), payload))
  }

  /** Where the first dot is, or the length. */
  function FirstDot(s: string): (i: nat)
    ensures i <= |s| && '.' !in s[..i] && (i < |s| ==> s[i] == '.')
  {
    if s == [] || s[0] == '.' then 0 else
    var i := FirstDot(s[1..]);
    assert s[..i + 1] == [s[0]] + s[1..][..i];
    i + 1
  }

  function LoadsBytes(b: seq<Byte>): Option<Json> {
    var text := Utf8.Decode(b);
    if text.None? then None else JsonText.Loads(text.value)
  }

  /** The document's checks; Python's `!= 1` also lets `true` through. */
  function ReadDocument<T>(p: Primitives<T>, document: Json, filters: Members): Option<Position<T>> {
    if !document.Object? then None else
    var m := document.members;
    var v, f, at, id := Get(m, "v"), Get(m, "filters"), Get(m, "createdAt"), Get(m, "id");
    if (v == Some(Number(1)) || v == Some(Boolean(true))) && f == Some(String(FilterFingerprint(p, filters)))
       && at.Some? && at.value.String? && id.Some? && id.value.String? then
      var time := p.fromIso(at.value.s);
      if time.None? then None else Some(Position(time.value, id.value.s))
    else None
  }

  /** None is the INVALID_CURSOR error. */
  function DecodeCursor<T>(p: Primitives<T>, token: string, filters: Members, secret: string): Option<Position<T>> {
    var i := FirstDot(token);
    if i == |token| then None else
    var payload, signature := Base64Url.Decode(token[..i]), Base64Url.Decode(token[i + 1..]);
    if payload.None? || signature.None? || signature.value != p.mac(Utf8.Encode(secret), payload.value) then None else
    var document := LoadsBytes(payload.value);
    if document.None? then None else ReadDocument(p, document.value, filters)
  }

  // --- the split is unambiguous --------------------------------------------------------------------

  lemma SplitsAtItsDot(a: string, b: string)
    requires '.' !in a
    ensures FirstDot(a + "." + b) == |a|
    ensures (a + "." + b)[..|a|] == a && (a + "." + b)[|a| + 1..] == b
  {
    var s := a + "." + b;
    var i := FirstDot(s);
    assert s[|a|] == '.' && s[..|a|] == a;
  }

  // --- the payload is read back ----------------------------------------------------------------------

  lemma PayloadGet<T>(p: Primitives<T>, at: Position<T>, filters: Members)
    ensures var m := Payload(p, at, filters);
            && Get(m, "v") == Some(Number(1)) && Get(m, "createdAt") == Some(String(p.iso(at.createdAt)))
            && Get(m, "id") == Some(String(at.identifier))
            && Get(m, "filters") == Some(String(FilterFingerprint(p, filters)))
    ensures DistinctKeys(Payload(p, at, filters))
  {
    var f := Member("filters", String(FilterFingerprint(p, filters)), NoMembers);
    var id := Member("id", String(at.identifier), f);
    var created := Member("createdAt", String(p.iso(at.createdAt)), id);
    assert |"v"| == 1 && |"createdAt"| == 9 && |"id"| == 2 && |"filters"| == 7;
    AddMember("filters", f.value, NoMembers);
    AddMember("id", id.value, f);
    AddMember("createdAt", created.value, id);
    AddMember("v", Number(1), created);
    assert Get(created, "id") == Get(id, "id") && Get(created, "filters") == Get(id, "filters");
    assert Payload(p, at, filters) == Member("v", Number(1), created);
  }

  lemma PayloadReadsBack<T>(p: Primitives<T>, at: Position<T>, filters: Members)
    ensures LoadsBytes(PayloadBytes(p, at, filters)) == Some(Object(CanonMembers(Payload(p, at, filters))))
  {
    var v := Object(Payload(p, at, filters));
    Utf8.DecodeEncode(JsonText.Dumps(v));
    JsonText.LoadsDumps(v);
  }

  lemma DocumentOfPayload<T>(p: Primitives<T>, at: Position<T>, filters: Members, others: Members)
    requires p.fromIso(p.iso(at.createdAt)) == Some(at.createdAt)
    ensures ReadDocument(p, Object(CanonMembers(Payload(p, at, filters))), others)
            == if FilterFingerprint(p, filters) == FilterFingerprint(p, others) then Some(at) else None
  {
    var m := Payload(p, at, filters);
    PayloadGet(p, at, filters);
    CanonMembersGet(m, "v");
    CanonMembersGet(m, "filters");
    CanonMembersGet(m, "createdAt");
    CanonMembersGet(m, "id");
  }

  // --- the main results ----------------------------------------------------------------------------

  /**
   What any reader makes of any encoded cursor: the position, when its secret gives the same MAC and
   its filters the same digest, and otherwise the INVALID_CURSOR error.
   */
  lemma DecodeEncoded<T>(p: Primitives<T>, at: Position<T>, filters: Members, secret: string, others: Members,
                         key: string)
    requires p.fromIso(p.iso(at.createdAt)) == Some(at.createdAt)
    ensures DecodeCursor(p, EncodeCursor(p, at, filters, secret), others, key)
            == if p.mac(Utf8.Encode(secret), PayloadBytes(p, at, filters))
                  == p.mac(Utf8.Encode(key), PayloadBytes(p, at, filters))
                  && FilterFingerprint(p, filters) == FilterFingerprint(p, others)
               then Some(at) else None
  {
    var payload := PayloadBytes(p, at, filters);
    var signature := p.mac(Utf8.Encode(secret), payload);
    Base64Url.EncodeAlphabet(payload);
    SplitsAtItsDot(Base64Url.Encode(payload), Base64Url.Encode(signature));
    Base64Url.DecodeEncode(payload);
    Base64Url.DecodeEncode(signature);
    PayloadReadsBack(p, at, filters);
    DocumentOfPayload(p, at, filters, others);
  }

  /** The text at this dot is a payload with its MAC, and the payload the JSON text of these members. */
  ghost predicate SignedAt<T>(p: Primitives<T>, token: string, dot: nat, payload: seq<Byte>, text: string,
                              document: Members, secret: string)
  {
    && dot < |token| && token[dot] == '.' && '.' !in token[..dot]
    && Base64Url.Decode(token[..dot]) == Some(payload)
    && Base64Url.Decode(token[dot + 1..]) == Some(p.mac(Utf8.Encode(secret), payload))
    && Utf8.Decode(payload) == Some(text) && JsonText.Loads(text) == Some(Object(document))
  }

  lemma SignedOnce<T>(p: Primitives<T>, token: string, dot: nat, payload: seq<Byte>, text: string, document: Members,
                      secret: string)
    requires SignedAt(p, token, dot, payload, text, document, secret)
    ensures dot == FirstDot(token)
  {
    SplitsAtItsDot(token[..dot], token[dot + 1..]);
    assert token == token[..dot] + "." + token[dot + 1..];
  }

  ghost predicate NamesPosition<T>(p: Primitives<T>, document: Members, filters: Members, at: Position<T>) {
    && (Get(document, "v") == Some(Number(1)) || Get(document, "v") == Some(Boolean(true)))
    && Get(document, "filters") == Some(String(p.sha(Fingerprint.CanonicalBytes(Object(filters)))))
    && Get(document, "id") == Some(String(at.identifier))
    && exists time :: Get(document, "createdAt") == Some(String(time)) && p.fromIso(time) == Some(at.createdAt)
  }

  lemma ReadExactly<T>(p: Primitives<T>, document: Members, filters: Members, at: Position<T>)
    ensures ReadDocument(p, Object(document), filters) == Some(at) <==> NamesPosition(p, document, filters, at)
  {
    hide Get;
    if ReadDocument(p, Object(document), filters) == Some(at) {
      var time := Get(document, "createdAt").value.s;
      assert Get(document, "createdAt") == Some(String(time)) && p.fromIso(time) == Some(at.createdAt);
    }
  }

  /**
   Which tokens are accepted, and as what: before its first dot a payload, after it the payload's MAC; the
   payload is a JSON object of version 1, which Python also takes `true` for, with the digest of these
   filters, a time that reads as the position's and its identifier. Everything else is INVALID_CURSOR.
   */
  lemma DecodedExactly<T>(p: Primitives<T>, token: string, filters: Members, secret: string, at: Position<T>)
    ensures DecodeCursor(p, token, filters, secret) == Some(at) <==>
            exists dot: nat, payload, text, document ::
              SignedAt(p, token, dot, payload, text, document, secret) && NamesPosition(p, document, filters, at)
  {
    hide ReadDocument, NamesPosition, FirstDot;
    forall document ensures ReadDocument(p, Object(document), filters) == Some(at) <==>
                            NamesPosition(p, document, filters, at)
    {
      ReadExactly(p, document, filters, at);
    }
    if dot: nat, payload, text, document :|
       SignedAt(p, token, dot, payload, text, document, secret) && NamesPosition(p, document, filters, at) {
      SignedOnce(p, token, dot, payload, text, document, secret);
      assert LoadsBytes(payload) == Some(Object(document));
    }
    if DecodeCursor(p, token, filters, secret) == Some(at) {
      var dot := FirstDot(token);
      var payload := Base64Url.Decode(token[..dot]).value;
      var document := LoadsBytes(payload).value;
      ObjectsOnly(p, document, filters);
      assert SignedAt(p, token, dot, payload, Utf8.Decode(payload).value, document.members, secret);
    }
  }

  lemma ObjectsOnly<T>(p: Primitives<T>, document: Json, filters: Members)
    ensures ReadDocument(p, document, filters).Some? ==> document.Object?
  {
  }

  /** Every cursor round-trips under the filters and secret it was made with. */
  lemma CursorRoundTrip<T>(p: Primitives<T>, at: Position<T>, filters: Members, secret: string)
    requires p.fromIso(p.iso(at.createdAt)) == Some(at.createdAt)
    ensures DecodeCursor(p, EncodeCursor(p, at, filters, secret), filters, secret) == Some(at)
  {
    DecodeEncoded(p, at, filters, secret, filters, secret);
  }

  /** With an injective digest, a cursor is accepted exactly under filters that are the same JSON. */
  lemma CursorBoundToFilters<T>(p: Primitives<T>, at: Position<T>, filters: Members, others: Members, secret: string)
    requires p.fromIso(p.iso(at.createdAt)) == Some(at.createdAt)
    requires forall a, b :: p.sha(a) == p.sha(b) ==> a == b
    requires Dictionaries(Object(filters)) && Dictionaries(Object(others))
    ensures DecodeCursor(p, EncodeCursor(p, at, filters, secret), others, secret)
            == if SameMembers(filters, others) then Some(at) else None
  {
    DecodeEncoded(p, at, filters, secret, others, secret);
    Fingerprint.CanonicalBytesAgree(Object(filters), Object(others));
    assert FilterFingerprint(p, filters) == FilterFingerprint(p, others) <==> SameMembers(filters, others);
  }
}
