/**
 The webhook pipeline of the edge worker: archive the bytes under their digest, queue a reference,
 answer 202; a consumer forwards each reference to the origin and acknowledges or retries it.
 Requests and deliveries interleave at every storage, queue and network operation, any request may
 die at any point, and a delivery may die after the origin accepted it. sha256 is a parameter.
 */
module WebhookPipeline {
  import opened Basics
  import opened Utf8

  type Bytes = seq<Byte>

  datatype Reference = Reference(
    connectorId: string, digest: string, eventId: string, providerTimestamp: string, providerSignature: string,
    traceparent: string)

  /** A queue message; `request` says which webhook request sent it. */
  datatype Message = Message(request: nat, ref: Reference, attempts: nat)

  datatype Stage = Started | LookedUp(found: Option<Bytes>) | Archived | Queued

  datatype InFlight = InFlight(ref: Reference, body: Bytes, stage: Stage)

  /** The digest and the queue's retry limit; None means retries never stop. */
  datatype Config = Config(sha: Bytes -> string, maxRetries: Option<nat>)

  datatype State = State(
    archive: map<string, Bytes>, // by digest
    queue: seq<Message>,
    inflight: map<nat, InFlight>,
    seen: map<nat, Bytes>,       // every request's body
    answered: set<nat>,          // requests answered 202
    accepted: map<nat, Bytes>,   // what the origin accepted for a request
    dropped: map<nat, nat>,      // references given up, and after how many deliveries
    integrityFailures: nat)

  const EMPTY := State(map[], [], map[], map[], {}, map[], map[], 0)

  datatype Step =
    | Arrive(request: nat, ref: Reference, body: Bytes)
    | LookUp(request: nat)
    | Archive(request: nat)
    | Send(request: nat)
    | Respond(request: nat)
    | Abort(request: nat)
    | Deliver(i: nat, accepts: bool, acks: bool)

  // --- one step ------------------------------------------------------------------------------------

  predicate At(s: State, request: nat, stage: Stage) {
    request in s.inflight && s.inflight[request].stage == stage
  }

  function Moved(s: State, request: nat, stage: Stage): State
    requires request in s.inflight
  {
    s.(inflight := s.inflight[request := s.inflight[request].(stage := stage)])
  }

  function Gone(s: State, request: nat): State {
    s.(inflight := s.inflight - {request})
  }

  /** After the lookup: check what was found, or put the body. */
  function ArchiveStep(c: Config, s: State, request: nat): State
    requires request in s.inflight && s.inflight[request].stage.LookedUp?
  {
    var f := s.inflight[request];
    if f.stage.found.Some? then
      if c.sha(f.stage.found.value) != f.ref.digest then Gone(s, request).(integrityFailures := s.integrityFailures + 1)
      else Moved(s, request, Archived)
    else Moved(s.(archive := s.archive[f.ref.digest := f.body]), request, Archived)
  }

  function Without(queue: seq<Message>, i: nat): seq<Message>
    requires i < |queue|
  {
    queue[..i] + queue[i + 1..]
  }

  /** A delivery that is not acknowledged: retried, or given up once the retries are used. */
  function Retried(c: Config, s: State, i: nat): State
    requires i < |s.queue|
  {
    var m := s.queue[i];
    if c.maxRetries.Some? && m.attempts >= c.maxRetries.value then
      s.(queue := Without(s.queue, i), dropped := s.dropped[m.request := m.attempts + 1])
    else s.(queue := s.queue[i := m.(attempts := m.attempts + 1)])
  }

  /** `forward`, then `ack` or `retry`. */
  function DeliverStep(c: Config, s: State, i: nat, accepts: bool, acks: bool): State
    requires i < |s.queue|
  {
    var m := s.queue[i];
    if m.ref.digest !in s.archive || c.sha(s.archive[m.ref.digest]) != m.ref.digest then
      Retried(c, s.(integrityFailures := s.integrityFailures + 1), i)
    else if !accepts then Retried(c, s, i)
    else
      var t := s.(accepted := s.accepted[m.request := s.archive[m.ref.digest]]);
      if acks then t.(queue := Without(t.queue, i)) else Retried(c, t, i)
  }

  /** A step that does not apply changes nothing. */
  function Apply(c: Config, s: State, step: Step): State {
    match step
    case Arrive(request, ref, body) =>
      if request in s.seen then s
      else s.(seen := s.seen[request := body],
              inflight := s.inflight[request := InFlight(ref.(digest := c.sha(body)), body, Started)])
    case LookUp(request) =>
      if !At(s, request, Started) then s else
      var digest := s.inflight[request].ref.digest;
      Moved(s, request, LookedUp(if digest in s.archive then Some(s.archive[digest]) else None))
    case Archive(request) =>
      if request !in s.inflight || !s.inflight[request].stage.LookedUp? then s else ArchiveStep(c, s, request)
    case Send(request) =>
      if !At(s, request, Archived) then s else
      Moved(s.(queue := s.queue + [Message(request, s.inflight[request].ref, 0)]), request, Queued)
    case Respond(request) =>
      if !At(s, request, Queued) then s else Gone(s, request).(answered := s.answered + {request})
    case Abort(request) => Gone(s, request)
    case Deliver(i, accepts, acks) => if i >= |s.queue| then s else DeliverStep(c, s, i, accepts, acks)
  }

  function Fold<S, E>(f: (S, E) -> S, s: S, es: seq<E>): S {
    if es == [] then s else f(Fold(f, s, es[..|es| - 1]), es[|es| - 1])
  }

  function Applier(c: Config): (State, Step) -> State {
    (s: State, step: Step) => Apply(c, s, step)
  }

  function Run(c: Config, s: State, steps: seq<Step>): State {
    Fold(Applier(c), s, steps)
  }

  // --- the invariant ---------------------------------------------------------------------------------

  predicate InQueue(queue: seq<Message>, request: nat) {
    exists k :: 0 <= k < |queue| && queue[k].request == request
  }

  /** The request's reference is queued, accepted or given up. */
  predicate Tracked(s: State, request: nat) {
    InQueue(s.queue, request) || request in s.accepted || request in s.dropped
  }

  ghost predicate ArchiveMatches(c: Config, archive: map<string, Bytes>) {
    forall d :: d in archive ==> c.sha(archive[d]) == d
  }

  ghost predicate MessageGood(c: Config, s: State, m: Message) {
    && m.request in s.seen && m.ref.digest == c.sha(s.seen[m.request]) && m.ref.digest in s.archive
    && (c.maxRetries.Some? ==> m.attempts <= c.maxRetries.value)
  }

  ghost predicate FlightGood(c: Config, s: State, request: nat, f: InFlight) {
    && request in s.seen && f.body == s.seen[request] && f.ref.digest == c.sha(f.body)
    && (f.stage.LookedUp? && f.stage.found.Some? ==>
          f.ref.digest in s.archive && c.sha(f.stage.found.value) == f.ref.digest)
    && (f.stage.Archived? || f.stage.Queued? ==> f.ref.digest in s.archive)
    && (f.stage.Queued? ==> Tracked(s, request))
  }

  ghost predicate Good(c: Config, s: State) {
    && ArchiveMatches(c, s.archive)
    && (forall i :: 0 <= i < |s.queue| ==> MessageGood(c, s, s.queue[i]))
    && (forall r :: r in s.inflight ==> FlightGood(c, s, r, s.inflight[r]))
    && (forall r :: r in s.answered ==> Tracked(s, r))
    && (forall r :: r in s.accepted ==> r in s.seen && c.sha(s.accepted[r]) == c.sha(s.seen[r]))
    && (forall r :: r in s.dropped ==> c.maxRetries.Some? && s.dropped[r] == c.maxRetries.value + 1)
    && s.integrityFailures == 0
  }

  /** What a step keeps of everything it does not touch. */
  ghost predicate Grows(s: State, t: State) {
    && (forall d :: d in s.archive ==> d in t.archive)
    && (forall r :: r in s.seen ==> r in t.seen && t.seen[r] == s.seen[r])
    && (forall r :: Tracked(s, r) ==> Tracked(t, r))
  }

  lemma RemovalKeeps(queue: seq<Message>, i: nat, request: nat)
    requires i < |queue| && InQueue(queue, request) && request != queue[i].request
    ensures InQueue(Without(queue, i), request)
  {
    var k :| 0 <= k < |queue| && queue[k].request == request;
    assert Without(queue, i)[if k < i then k else k - 1] == queue[k];
  }

  lemma UpdateKeeps(queue: seq<Message>, i: nat, m: Message, request: nat)
    requires i < |queue| && InQueue(queue, request) && m.request == queue[i].request
    ensures InQueue(queue[i := m], request)
  {
    var k :| 0 <= k < |queue| && queue[k].request == request;
    assert queue[i := m][k].request == request;
  }

  /** The parts of the invariant about flights and answers follow from growth. */
  lemma GrowthKeeps(c: Config, s: State, t: State)
    requires Good(c, s) && Grows(s, t)
    ensures forall i :: 0 <= i < |s.queue| ==> MessageGood(c, t, s.queue[i])
    ensures forall r :: r in s.inflight ==> FlightGood(c, t, r, s.inflight[r])
    ensures forall r :: r in s.answered ==> Tracked(t, r)
  {
  }

  lemma RetryKeeps(c: Config, s: State, i: nat)
    requires Good(c, s) && i < |s.queue|
    ensures Good(c, Retried(c, s, i))
  {
    var t, m := Retried(c, s, i), s.queue[i];
    assert MessageGood(c, s, m);
    forall r | Tracked(s, r) ensures Tracked(t, r) {
      if InQueue(s.queue, r) {
        if c.maxRetries.Some? && m.attempts >= c.maxRetries.value {
          if r != m.request {
            RemovalKeeps(s.queue, i, r);
          }
        } else {
          UpdateKeeps(s.queue, i, m.(attempts := m.attempts + 1), r);
        }
      }
    }
    GrowthKeeps(c, s, t);
  }

  /** The origin accepted the archived bytes. */
  lemma AcceptKeeps(c: Config, s: State, i: nat)
    requires Good(c, s) && i < |s.queue|
    ensures var m := s.queue[i];
            m.ref.digest in s.archive && Good(c, s.(accepted := s.accepted[m.request := s.archive[m.ref.digest]]))
  {
    var m := s.queue[i];
    assert MessageGood(c, s, m);
    GrowthKeeps(c, s, s.(accepted := s.accepted[m.request := s.archive[m.ref.digest]]));
  }

  lemma AckKeeps(c: Config, s: State, i: nat)
    requires Good(c, s) && i < |s.queue| && s.queue[i].request in s.accepted
    ensures Good(c, s.(queue := Without(s.queue, i)))
  {
    var t := s.(queue := Without(s.queue, i));
    forall r | Tracked(s, r) ensures Tracked(t, r) {
      if InQueue(s.queue, r) && r != s.queue[i].request {
        RemovalKeeps(s.queue, i, r);
      }
    }
    GrowthKeeps(c, s, t);
  }

  lemma DeliverKeeps(c: Config, s: State, i: nat, accepts: bool, acks: bool)
    requires Good(c, s) && i < |s.queue|
    ensures Good(c, DeliverStep(c, s, i, accepts, acks))
  {
    var m := s.queue[i];
    assert MessageGood(c, s, m);
    if !accepts {
      RetryKeeps(c, s, i);
    } else {
      AcceptKeeps(c, s, i);
      var t := s.(accepted := s.accepted[m.request := s.archive[m.ref.digest]]);
      if acks {
        AckKeeps(c, t, i);
      } else {
        RetryKeeps(c, t, i);
      }
    }
  }

  lemma ArchiveKeeps(c: Config, s: State, request: nat)
    requires Good(c, s) && request in s.inflight && s.inflight[request].stage.LookedUp?
    ensures Good(c, ArchiveStep(c, s, request))
  {
    var t := ArchiveStep(c, s, request);
    assert FlightGood(c, s, request, s.inflight[request]);
    assert Grows(s, t);
    GrowthKeeps(c, s, t);
  }

  lemma SendKeeps(c: Config, s: State, request: nat)
    requires Good(c, s) && At(s, request, Archived)
    ensures Good(c, Apply(c, s, Send(request)))
  {
    var t := Apply(c, s, Send(request));
    var m := Message(request, s.inflight[request].ref, 0);
    assert FlightGood(c, s, request, s.inflight[request]);
    assert t.queue[|s.queue|] == m;
    forall r | Tracked(s, r) ensures Tracked(t, r) {
      if InQueue(s.queue, r) {
        var k :| 0 <= k < |s.queue| && s.queue[k].request == r;
        assert t.queue[k] == s.queue[k];
      }
    }
    GrowthKeeps(c, s, t);
    assert MessageGood(c, t, m);
  }

  lemma ArriveKeeps(c: Config, s: State, request: nat, ref: Reference, body: Bytes)
    requires Good(c, s) && request !in s.seen
    ensures Good(c, Apply(c, s, Arrive(request, ref, body)))
  {
    var t := Apply(c, s, Arrive(request, ref, body));
    assert Grows(s, t);
    GrowthKeeps(c, s, t);
  }

  lemma LookUpKeeps(c: Config, s: State, request: nat)
    requires Good(c, s) && At(s, request, Started)
    ensures Good(c, Apply(c, s, LookUp(request)))
  {
    var t := Apply(c, s, LookUp(request));
    assert FlightGood(c, s, request, s.inflight[request]);
    assert Grows(s, t);
    GrowthKeeps(c, s, t);
  }

  lemma GoneKeeps(c: Config, s: State, request: nat, answers: bool)
    requires Good(c, s) && (answers ==> At(s, request, Queued))
    ensures Good(c, Gone(s, request).(answered := if answers then s.answered + {request} else s.answered))
  {
    var t := Gone(s, request).(answered := if answers then s.answered + {request} else s.answered);
    assert answers ==> FlightGood(c, s, request, s.inflight[request]);
    assert Grows(s, t);
    GrowthKeeps(c, s, t);
  }

  lemma StepKeeps(c: Config, s: State, step: Step)
    requires Good(c, s)
    ensures Good(c, Apply(c, s, step))
  {
    match step {
      case Arrive(request, ref, body) =>
        if request !in s.seen {
          ArriveKeeps(c, s, request, ref, body);
        }
      case LookUp(request) =>
        if At(s, request, Started) {
          LookUpKeeps(c, s, request);
        }
      case Archive(request) =>
        if request in s.inflight && s.inflight[request].stage.LookedUp? {
          ArchiveKeeps(c, s, request);
        }
      case Send(request) =>
        if At(s, request, Archived) {
          SendKeeps(c, s, request);
        }
      case Respond(request) =>
        if At(s, request, Queued) {
          GoneKeeps(c, s, request, true);
        }
      case Abort(request) => GoneKeeps(c, s, request, false);
      case Deliver(i, accepts, acks) =>
        if i < |s.queue| {
          DeliverKeeps(c, s, i, accepts, acks);
        }
    }
  }

  lemma {:induction false} RunKeeps(c: Config, s: State, steps: seq<Step>)
    requires Good(c, s)
    ensures Good(c, Run(c, s, steps))
    decreases |steps|
  {
    if steps != [] {
      RunKeeps(c, s, steps[..|steps| - 1]);
      StepKeeps(c, Run(c, s, steps[..|steps| - 1]), steps[|steps| - 1]);
    }
  }

  /** Every state reachable from an empty archive, under every interleaving. */
  lemma ReachableIsGood(c: Config, steps: seq<Step>)
    ensures Good(c, Run(c, EMPTY, steps))
  {
    RunKeeps(c, EMPTY, steps);
  }

  // --- what the pipeline promises ----------------------------------------------------------------------

  /** Archived objects match their keys, queued references resolve, and no integrity branch is ever taken. */
  lemma ArchiveIsSound(c: Config, steps: seq<Step>)
    ensures var s := Run(c, EMPTY, steps);
            && (forall d :: d in s.archive ==> c.sha(s.archive[d]) == d)
            && (forall i :: 0 <= i < |s.queue| ==> s.queue[i].ref.digest in s.archive)
            && s.integrityFailures == 0
  {
    ReachableIsGood(c, steps);
    var s := Run(c, EMPTY, steps);
    forall i | 0 <= i < |s.queue| ensures s.queue[i].ref.digest in s.archive {
      assert MessageGood(c, s, s.queue[i]);
    }
  }

  /**
   A webhook answered 202 is still queued, or the origin has accepted bytes with its digest, or its
   reference was given up after exactly one delivery more than the retry limit.
   */
  lemma AnsweredIsTracked(c: Config, steps: seq<Step>, request: nat)
    requires request in Run(c, EMPTY, steps).answered
    ensures var s := Run(c, EMPTY, steps);
            || InQueue(s.queue, request)
            || (request in s.accepted && request in s.seen && c.sha(s.accepted[request]) == c.sha(s.seen[request]))
            || (request in s.dropped && c.maxRetries.Some? && s.dropped[request] == c.maxRetries.value + 1)
  {
    ReachableIsGood(c, steps);
  }

  /** With retries that never stop, nothing answered 202 is ever lost. */
  lemma NeverLostWithoutLimit(c: Config, steps: seq<Step>, request: nat)
    requires c.maxRetries.None? && request in Run(c, EMPTY, steps).answered
    ensures var s := Run(c, EMPTY, steps); InQueue(s.queue, request) || request in s.accepted
  {
    ReachableIsGood(c, steps);
  }

  /** With an injective digest, what the origin accepted for a request is that request's body. */
  lemma AcceptedBytesAreTheBody(c: Config, steps: seq<Step>, request: nat)
    requires forall a, b :: c.sha(a) == c.sha(b) ==> a == b
    requires request in Run(c, EMPTY, steps).accepted
    ensures var s := Run(c, EMPTY, steps); request in s.seen && s.accepted[request] == s.seen[request]
  {
    ReachableIsGood(c, steps);
  }

  // --- the retry limit loses references -----------------------------------------------------------------

  function Repeated<E>(e: E, n: nat): seq<E> {
    if n == 0 then [] else Repeated(e, n - 1) + [e]
  }

  /** The same event over and over, along a chain of states it leads through. */
  lemma {:induction false} FoldRepeated<S, E>(f: (S, E) -> S, chain: nat -> S, e: E, n: nat)
    requires forall k: nat :: k < n ==> f(chain(k), e) == chain(k + 1)
    ensures Fold(f, chain(0), Repeated(e, n)) == chain(n)
  {
    if n > 0 {
      FoldRepeated(f, chain, e, n - 1);
      assert Repeated(e, n)[..|Repeated(e, n)| - 1] == Repeated(e, n - 1);
    }
  }

  lemma {:induction false} FoldAppend<S, E>(f: (S, E) -> S, s: S, a: seq<E>, b: seq<E>)
    ensures Fold(f, s, a + b) == Fold(f, Fold(f, s, a), b)
    decreases |b|
  {
    if b == [] {
      assert a + b == a;
    } else {
      assert (a + b)[..|a + b| - 1] == a + b[..|b| - 1];
      FoldAppend(f, s, a, b[..|b| - 1]);
    }
  }

  const REFUSAL := Deliver(0, false, true)

  function Refusals(n: nat): seq<Step> {
    Repeated(REFUSAL, n)
  }

  const SAMPLE := Reference("con_0", "", "evt_0", "1700000000", "v1=0", "00-0-0-01")

  const ONE_WEBHOOK: seq<Step> := [Arrive(0, SAMPLE, []), LookUp(0), Archive(0), Send(0), Respond(0)]

  lemma RunAppend(c: Config, s: State, a: seq<Step>, b: seq<Step>)
    ensures Run(c, s, a + b) == Run(c, Run(c, s, a), b)
  {
    FoldAppend(Applier(c), s, a, b);
  }

  lemma RunOne(c: Config, s: State, step: Step)
    ensures Run(c, s, [step]) == Apply(c, s, step)
  {
    var steps := [step];
    assert steps[..0] == [];
    assert Fold(Applier(c), s, steps[..0]) == s;
  }

  /** The steps of one request that meets no other. */
  lemma RunWebhook(c: Config, s: State, request: nat, ref: Reference, body: Bytes)
    ensures Run(c, s, WebhookSteps(request, ref, body))
            == Apply(c, Apply(c, Apply(c, Apply(c, Apply(c, s, Arrive(request, ref, body)), LookUp(request)),
                                       Archive(request)), Send(request)), Respond(request))
  {
    var a, b, d, e, f := Arrive(request, ref, body), LookUp(request), Archive(request), Send(request), Respond(request);
    RunOne(c, s, a);
    RunAppend(c, s, [a], [b]);
    RunAppend(c, s, [a, b], [d]);
    RunAppend(c, s, [a, b, d], [e]);
    RunAppend(c, s, [a, b, d, e], [f]);
    assert [a] + [b] == [a, b] && [a, b] + [d] == [a, b, d];
    assert [a, b, d] + [e] == [a, b, d, e] && [a, b, d, e] + [f] == [a, b, d, e, f];
    RunOne(c, Run(c, s, [a]), b);
    RunOne(c, Run(c, s, [a, b]), d);
    RunOne(c, Run(c, s, [a, b, d]), e);
    RunOne(c, Run(c, s, [a, b, d, e]), f);
  }

  function WebhookSteps(request: nat, ref: Reference, body: Bytes): seq<Step> {
    [Arrive(request, ref, body), LookUp(request), Archive(request), Send(request), Respond(request)]
  }

  lemma OneWebhookQueued(c: Config)
    ensures var s := Run(c, EMPTY, ONE_WEBHOOK);
            && s.answered == {0} && s.accepted == map[]
            && s.queue == [Message(0, SAMPLE.(digest := c.sha([])), 0)]
            && c.sha([]) in s.archive && c.sha(s.archive[c.sha([])]) == c.sha([])
  {
    WebhookEffect(c, EMPTY, 0, SAMPLE, []);
    assert ONE_WEBHOOK == WebhookSteps(0, SAMPLE, []);
  }

  /** One message in the queue, after so many deliveries. */
  function Tried(s: State, m: Message, n: nat): State {
    s.(queue := [m.(attempts := n)])
  }

  predicate Resolves(c: Config, s: State, m: Message) {
    m.ref.digest in s.archive && c.sha(s.archive[m.ref.digest]) == m.ref.digest
  }

  lemma RefusedAgain(c: Config, s: State, m: Message, n: nat)
    requires Resolves(c, s, m) && c.maxRetries.Some? && n < c.maxRetries.value
    ensures Apply(c, Tried(s, m, n), REFUSAL) == Tried(s, m, n + 1)
  {
    assert Tried(s, m, n).queue[0 := m.(attempts := n + 1)] == [m.(attempts := n + 1)];
  }

  lemma RefusedOnceTooOften(c: Config, s: State, m: Message)
    requires Resolves(c, s, m) && c.maxRetries.Some?
    ensures var t := Apply(c, Tried(s, m, c.maxRetries.value), REFUSAL);
            t.queue == [] && t.answered == s.answered && t.accepted == s.accepted
  {
    assert Without(Tried(s, m, c.maxRetries.value).queue, 0) == [];
  }

  lemma RefusedDeliveries(c: Config, s: State, m: Message, n: nat)
    requires Resolves(c, s, m) && c.maxRetries.Some? && n <= c.maxRetries.value
    ensures Run(c, Tried(s, m, 0), Refusals(n)) == Tried(s, m, n)
  {
    var chain := (k: nat) => Tried(s, m, k);
    forall k: nat | k < n ensures Applier(c)(chain(k), REFUSAL) == chain(k + 1) {
      RefusedAgain(c, s, m, k);
    }
    FoldRepeated(Applier(c), chain, REFUSAL, n);
  }

  lemma RefusedToTheEnd(c: Config, s: State, m: Message)
    requires s.queue == [m] && m.attempts == 0 && Resolves(c, s, m) && c.maxRetries.Some?
    ensures var t := Run(c, s, Refusals(c.maxRetries.value + 1));
            t.queue == [] && t.answered == s.answered && t.accepted == s.accepted
  {
    var n := c.maxRetries.value;
    assert s == Tried(s, m, 0);
    RefusedDeliveries(c, s, m, n);
    RunAppend(c, s, Refusals(n), [REFUSAL]);
    RunOne(c, Tried(s, m, n), REFUSAL);
    RefusedOnceTooOften(c, s, m);
  }

  ghost predicate NeverLost(c: Config) {
    forall steps, request :: request in Run(c, EMPTY, steps).answered ==>
      InQueue(Run(c, EMPTY, steps).queue, request) || request in Run(c, EMPTY, steps).accepted
  }

  /** An origin that refuses one delivery more than the limit, such as the configured three, loses a 202. */
  lemma LimitLoses(c: Config)
    requires c.maxRetries.Some?
    ensures var s := Run(c, EMPTY, ONE_WEBHOOK + Refusals(c.maxRetries.value + 1));
            0 in s.answered && s.queue == [] && s.accepted == map[]
  {
    OneWebhookQueued(c);
    RunAppend(c, EMPTY, ONE_WEBHOOK, Refusals(c.maxRetries.value + 1));
    RefusedToTheEnd(c, Run(c, EMPTY, ONE_WEBHOOK), Message(0, SAMPLE.(digest := c.sha([])), 0));
  }

  /** A 202 is never lost exactly when the queue's retries never stop. */
  lemma NeverLostExactly(c: Config)
    ensures NeverLost(c) <==> c.maxRetries.None?
  {
    if c.maxRetries.None? {
      forall steps, request | request in Run(c, EMPTY, steps).answered
        ensures InQueue(Run(c, EMPTY, steps).queue, request) || request in Run(c, EMPTY, steps).accepted
      {
        NeverLostWithoutLimit(c, steps, request);
      }
    } else {
      LimitLoses(c);
      var steps := ONE_WEBHOOK + Refusals(c.maxRetries.value + 1);
      assert 0 in Run(c, EMPTY, steps).answered;
    }
  }

  // --- the worker ---------------------------------------------------------------------------------------

  /** The messages of a batch that stay: not accepted, and with a retry left. */
  function Kept(c: Config, batch: seq<Message>, accepts: seq<bool>): seq<Message>
    requires |batch| == |accepts|
  {
    if batch == [] then [] else
    var n := |batch| - 1;
    Kept(c, batch[..n], accepts[..n])
    + if accepts[n] || Exhausted(c, batch[n]) then [] else [batch[n].(attempts := batch[n].attempts + 1)]
  }

  predicate Exhausted(c: Config, m: Message) {
    c.maxRetries.Some? && m.attempts >= c.maxRetries.value
  }

  class Worker {
    const config: Config
    var s: State

    constructor (config: Config)
      ensures this.config == config && s == EMPTY
    {
      this.config := config;
      s := EMPTY;
    }

    /** `webhook`, with no other request in between: the same as its steps one after the other. */
    method Webhook(request: nat, ref: Reference, body: Bytes) returns (status: nat)
      requires Good(config, s) && request !in s.seen
      modifies this`s
      ensures s == Run(config, old(s), WebhookSteps(request, ref, body)) && Good(config, s)
      ensures status == 202 && request in s.answered && InQueue(s.queue, request)
    {
      ghost var before := s;
      NewRequest(config, s, request);
      WebhookEffect(config, s, request, ref, body);
      RunKeeps(config, s, WebhookSteps(request, ref, body));
      var digest := config.sha(body);
      s := s.(seen := s.seen[request := body]);
      if digest in s.archive {
        if config.sha(s.archive[digest]) != digest {
          assert false;
        }
      } else {
        s := s.(archive := s.archive[digest := body]);
      }
      s := s.(queue := s.queue + [Message(request, ref.(digest := digest), 0)]);
      s := s.(answered := s.answered + {request});
      status := 202;
      assert s.queue[|before.queue|].request == request;
    }

    /** One message of the batch: forwarded, then acknowledged or retried. */
    method DeliverOne(i: nat, accepts: bool)
      requires Good(config, s) && i < |s.queue|
      modifies this`s
      ensures Good(config, s) && s == DeliverStep(config, old(s), i, accepts, true)
    {
      DeliverKeeps(config, s, i, accepts, true);
      var m := s.queue[i];
      assert MessageGood(config, s, m);
      if m.ref.digest !in s.archive || config.sha(s.archive[m.ref.digest]) != m.ref.digest {
        assert false;
      }
      if accepts {
        s := s.(accepted := s.accepted[m.request := s.archive[m.ref.digest]], queue := Without(s.queue, i));
      } else if Exhausted(config, m) {
        s := s.(queue := Without(s.queue, i), dropped := s.dropped[m.request := m.attempts + 1]);
      } else {
        s := s.(queue := s.queue[i := m.(attempts := m.attempts + 1)]);
      }
    }

    /** The queue consumer: each message of the batch is forwarded once and acknowledged or retried. */
    method ConsumeBatch(accepts: seq<bool>)
      requires Good(config, s) && |accepts| <= |s.queue|
      modifies this`s
      ensures Good(config, s) && s.answered == old(s.answered)
      ensures Consumed(config, old(s.queue), accepts, |accepts|, s)
    {
      var queue := s.queue;
      for n := 0 to |accepts|
        invariant Good(config, s) && s.answered == old(s.answered)
        invariant Consumed(config, queue, accepts, n, s)
      {
        BatchStep(config, queue, accepts, n, s);
        DeliverOne(|s.queue| - (|queue| - n), accepts[n]);
      }
    }
  }

  /** Of the first `n` messages, the accepted ones reached the origin and the exhausted ones were given up. */
  predicate Handled(c: Config, queue: seq<Message>, accepts: seq<bool>, n: nat, s: State)
    requires n <= |accepts| <= |queue|
  {
    forall k :: 0 <= k < n ==>
      && (accepts[k] ==> queue[k].request in s.accepted)
      && (!accepts[k] && Exhausted(c, queue[k]) ==> queue[k].request in s.dropped)
  }

  /** After `n` messages the queue holds those that stay, then the rest as they were. */
  predicate Consumed(c: Config, queue: seq<Message>, accepts: seq<bool>, n: nat, s: State)
    requires n <= |accepts| <= |queue|
  {
    s.queue == Kept(c, queue[..n], accepts[..n]) + queue[n..] && Handled(c, queue, accepts, n, s)
  }

  lemma BatchStep(c: Config, queue: seq<Message>, accepts: seq<bool>, n: nat, s: State)
    requires n < |accepts| <= |queue| && Good(c, s) && Consumed(c, queue, accepts, n, s)
    ensures |queue| - n <= |s.queue|
    ensures var t := DeliverStep(c, s, |s.queue| - (|queue| - n), accepts[n], true);
            Consumed(c, queue, accepts, n + 1, t) && t.answered == s.answered
  {
    var kept, i := Kept(c, queue[..n], accepts[..n]), |s.queue| - (|queue| - n);
    KeptSnoc(c, queue, accepts, n);
    DeliveredQueue(c, s, i, accepts[n], kept, queue[n..]);
    HandledSnoc(c, queue, accepts, n, s, i);
    assert queue[n..][1..] == queue[n + 1..];
  }

  lemma HandledSnoc(c: Config, queue: seq<Message>, accepts: seq<bool>, n: nat, s: State, i: nat)
    requires n < |accepts| <= |queue| && i < |s.queue| && s.queue[i] == queue[n] && Good(c, s)
    requires Handled(c, queue, accepts, n, s)
    ensures Handled(c, queue, accepts, n + 1, DeliverStep(c, s, i, accepts[n], true))
    ensures DeliverStep(c, s, i, accepts[n], true).answered == s.answered
  {
    assert MessageGood(c, s, s.queue[i]);
  }

  lemma KeptSnoc(c: Config, queue: seq<Message>, accepts: seq<bool>, n: nat)
    requires n < |accepts| <= |queue|
    ensures Kept(c, queue[..n + 1], accepts[..n + 1])
            == Kept(c, queue[..n], accepts[..n])
               + if accepts[n] || Exhausted(c, queue[n]) then [] else [queue[n].(attempts := queue[n].attempts + 1)]
  {
    assert queue[..n + 1][..n] == queue[..n] && accepts[..n + 1][..n] == accepts[..n];
  }

  /** What one acknowledged or retried delivery does to the queue around it. */
  lemma DeliveredQueue(c: Config, s: State, i: nat, accepts: bool, kept: seq<Message>, rest: seq<Message>)
    requires Good(c, s) && s.queue == kept + rest && i == |kept| && rest != []
    ensures DeliverStep(c, s, i, accepts, true).queue
            == kept + (if accepts || Exhausted(c, rest[0]) then [] else [rest[0].(attempts := rest[0].attempts + 1)])
               + rest[1..]
  {
    assert MessageGood(c, s, s.queue[i]);
    assert Without(s.queue, i) == kept + rest[1..];
    assert s.queue[i := rest[0].(attempts := rest[0].attempts + 1)]
           == kept + [rest[0].(attempts := rest[0].attempts + 1)] + rest[1..];
  }

  /** A state in which one more request is in flight. */
  function Flying(s: State, request: nat, f: InFlight): State {
    s.(inflight := s.inflight[request := f])
  }

  lemma FlyingMoved(s: State, request: nat, f: InFlight, stage: Stage)
    ensures Moved(Flying(s, request, f), request, stage) == Flying(s, request, f.(stage := stage))
  {
  }

  lemma FlyingGone(s: State, request: nat, f: InFlight)
    requires request !in s.inflight
    ensures Gone(Flying(s, request, f), request) == s
  {
    assert s.inflight[request := f] - {request} == s.inflight;
  }

  lemma FlyingArchives(c: Config, s: State, request: nat, f: InFlight)
    requires f.stage.Started?
    requires f.ref.digest in s.archive ==> c.sha(s.archive[f.ref.digest]) == f.ref.digest
    ensures Apply(c, Apply(c, Flying(s, request, f), LookUp(request)), Archive(request))
            == Flying(s.(archive := if f.ref.digest in s.archive then s.archive else s.archive[f.ref.digest := f.body]),
                      request, f.(stage := Archived))
  {
    var found := if f.ref.digest in s.archive then Some(s.archive[f.ref.digest]) else None;
    var g := f.(stage := LookedUp(found));
    FlyingMoved(s, request, f, LookedUp(found));
    FlyingMoved(s, request, g, Archived);
    FlyingMoved(s.(archive := s.archive[f.ref.digest := f.body]), request, g, Archived);
  }

  lemma FlyingAnswers(c: Config, s: State, request: nat, f: InFlight)
    requires f.stage.Archived? && request !in s.inflight
    ensures Apply(c, Apply(c, Flying(s, request, f), Send(request)), Respond(request))
            == s.(queue := s.queue + [Message(request, f.ref, 0)], answered := s.answered + {request})
  {
    var t := s.(queue := s.queue + [Message(request, f.ref, 0)]);
    FlyingMoved(t, request, f, Queued);
    FlyingGone(t, request, f.(stage := Queued));
  }

  /** What one request that meets no other does. */
  lemma WebhookEffect(c: Config, s: State, request: nat, ref: Reference, body: Bytes)
    requires request !in s.seen && request !in s.inflight
    requires c.sha(body) in s.archive ==> c.sha(s.archive[c.sha(body)]) == c.sha(body)
    ensures var digest := c.sha(body);
            Run(c, s, WebhookSteps(request, ref, body))
            == s.(seen := s.seen[request := body],
                  archive := if digest in s.archive then s.archive else s.archive[digest := body],
                  queue := s.queue + [Message(request, ref.(digest := digest), 0)],
                  answered := s.answered + {request})
  {
    var f := InFlight(ref.(digest := c.sha(body)), body, Started);
    var arrived := s.(seen := s.seen[request := body]);
    var stored := arrived.(archive := if f.ref.digest in s.archive then s.archive else s.archive[f.ref.digest := body]);
    RunWebhook(c, s, request, ref, body);
    assert Apply(c, s, Arrive(request, ref, body)) == Flying(arrived, request, f);
    FlyingArchives(c, arrived, request, f);
    FlyingAnswers(c, stored, request, f.(stage := Archived));
  }

  lemma NewRequest(c: Config, s: State, request: nat)
    requires Good(c, s) && request !in s.seen
    ensures request !in s.inflight
  {
    assert request in s.inflight ==> FlightGood(c, s, request, s.inflight[request]);
  }
}
