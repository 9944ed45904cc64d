/**
 The tenant coordinator of the edge worker: a storage map that admits each replay key once and each
 minute's requests up to a limit. A request is one atomic step; the clock is part of the request.
 */
module Coordinator {
  import opened Basics
  import JsonText

  datatype Request = Request(replayKey: string, safe: bool, timestamp: int, limit: int, windowSeconds: int, now: nat)

  datatype Response = Allowed | WindowExceeded | ReplayDetected | RateLimited

  type Storage = map<string, int>

  function ReplayKey(key: string): string {
    "replay:" + key
  }

  function RateKey(bucket: nat): string {
    "rate:" + JsonText.Decimal(bucket)
  }

  function Distance(a: int, b: int): int {
    if a < b then b - a else a - b
  }

  /** A stored zero is falsy, so it does not count as seen. */
  predicate Seen(storage: Storage, key: string) {
    ReplayKey(key) in storage && storage[ReplayKey(key)] != 0
  }

  function Used(storage: Storage, bucket: nat): int {
    if RateKey(bucket) in storage then storage[RateKey(bucket)] else 0
  }

  function Decide(storage: Storage, r: Request): Response {
    if !r.safe || Distance(r.now, r.timestamp) > r.windowSeconds then WindowExceeded
    else if Seen(storage, r.replayKey) then ReplayDetected
    else if Used(storage, r.now / 60) >= r.limit then RateLimited
    else Allowed
  }

  function Stored(storage: Storage, r: Request): Storage {
    if Decide(storage, r).Allowed? then
      storage[ReplayKey(r.replayKey) := r.now][RateKey(r.now / 60) := Used(storage, r.now / 60) + 1]
    else storage
  }

  class TenantCoordinator {
    var storage: Storage

    constructor ()
      ensures storage == map[]
    {
      storage := map[];
    }

    /** `fetch`: the checks in order, and one write of both keys on admission; a refusal writes nothing. */
    method Fetch(r: Request) returns (response: Response)
      modifies this
      ensures response == Decide(old(storage), r) && storage == Stored(old(storage), r)
      ensures !response.Allowed? ==> storage == old(storage)
    {
      if !r.safe || Distance(r.now, r.timestamp) > r.windowSeconds {
        return WindowExceeded;
      }
      var replayKey := ReplayKey(r.replayKey);
      if replayKey in storage && storage[replayKey] != 0 {
        return ReplayDetected;
      }
      var rateKey := RateKey(r.now / 60);
      var used := if rateKey in storage then storage[rateKey] else 0;
      if used >= r.limit {
        return RateLimited;
      }
      storage := storage[replayKey := r.now][rateKey := used + 1];
      return Allowed;
    }
  }

  // --- the log of admissions -----------------------------------------------------------------------

  datatype Admission = Admission(key: string, now: nat)

  /** Storage and the log of what was admitted, after a run of requests. */
  datatype State = State(storage: Storage, log: seq<Admission>)

  function Run(requests: seq<Request>): State {
    if requests == [] then State(map[], []) else
    var before, r := Run(requests[..|requests| - 1]), requests[|requests| - 1];
    State(Stored(before.storage, r),
          if Decide(before.storage, r).Allowed? then before.log + [Admission(r.replayKey, r.now)] else before.log)
  }

  function InBucket(log: seq<Admission>, bucket: nat): nat {
    if log == [] then 0 else
    InBucket(log[..|log| - 1], bucket) + if log[|log| - 1].now / 60 == bucket then 1 else 0
  }

  /** When the key was last admitted. */
  function LastAdmitted(log: seq<Admission>, key: string): Option<nat> {
    if log == [] then None
    else if log[|log| - 1].key == key then Some(log[|log| - 1].now)
    else LastAdmitted(log[..|log| - 1], key)
  }

  /** The replay keys are exactly the admitted ones, and each rate counter is its bucket's count. */
  ghost predicate Refines(storage: Storage, log: seq<Admission>) {
    && (forall k :: ReplayKey(k) in storage <==> LastAdmitted(log, k).Some?)
    && (forall k :: ReplayKey(k) in storage ==> LastAdmitted(log, k) == Some(storage[ReplayKey(k)]))
    && (forall b: nat :: Used(storage, b) == InBucket(log, b))
  }

  lemma KeysApart(k: string, l: string, b: nat, c: nat)
    ensures ReplayKey(k) != RateKey(b)
    ensures ReplayKey(k) == ReplayKey(l) ==> k == l
    ensures RateKey(b) == RateKey(c) ==> b == c
  {
    assert ReplayKey(k)[2] == 'p' && RateKey(b)[2] == 't';
    assert ReplayKey(k)[7..] == k && ReplayKey(l)[7..] == l;
    assert RateKey(b)[5..] == JsonText.Decimal(b) && RateKey(c)[5..] == JsonText.Decimal(c);
    JsonText.DecimalRoundTrip(b);
    JsonText.DecimalRoundTrip(c);
  }

  lemma LogSnoc(log: seq<Admission>, a: Admission, k: string, b: nat)
    ensures LastAdmitted(log + [a], k) == if a.key == k then Some(a.now) else LastAdmitted(log, k)
    ensures InBucket(log + [a], b) == InBucket(log, b) + if a.now / 60 == b then 1 else 0
  {
    assert (log + [a])[..|log|] == log;
  }

  lemma AdmissionRefines(storage: Storage, log: seq<Admission>, key: string, now: nat)
    requires Refines(storage, log)
    ensures Refines(storage[ReplayKey(key) := now][RateKey(now / 60) := Used(storage, now / 60) + 1],
                    log + [Admission(key, now)])
  {
    var after := storage[ReplayKey(key) := now][RateKey(now / 60) := Used(storage, now / 60) + 1];
    var admitted := log + [Admission(key, now)];
    forall k ensures ReplayKey(k) in after <==> LastAdmitted(admitted, k).Some?
      ensures ReplayKey(k) in after ==> LastAdmitted(admitted, k) == Some(after[ReplayKey(k)])
    {
      KeysApart(k, key, now / 60, 0);
      LogSnoc(log, Admission(key, now), k, 0);
    }
    forall b: nat ensures Used(after, b) == InBucket(admitted, b) {
      KeysApart(key, key, b, now / 60);
      LogSnoc(log, Admission(key, now), key, b);
    }
  }

  /** Storage refines the log after every run. */
  lemma {:induction false} RunRefines(requests: seq<Request>)
    ensures Refines(Run(requests).storage, Run(requests).log)
    decreases |requests|
  {
    if requests != [] {
      var before, r := Run(requests[..|requests| - 1]), requests[|requests| - 1];
      RunRefines(requests[..|requests| - 1]);
      if Decide(before.storage, r).Allowed? {
        AdmissionRefines(before.storage, before.log, r.replayKey, r.now);
      }
    }
  }

  // --- what the coordinator promises -----------------------------------------------------------------

  /** Any two admissions of a key: the earlier was at second zero. */
  predicate OncePerKey(log: seq<Admission>) {
    forall i, j | 0 <= i < j < |log| && log[i].key == log[j].key :: log[i].now == 0
  }

  lemma {:induction false} LastOfKey(log: seq<Admission>, i: nat)
    requires i < |log| && OncePerKey(log)
    ensures LastAdmitted(log, log[i].key).Some?
    ensures log[i].now != 0 ==> LastAdmitted(log, log[i].key) == Some(log[i].now)
    decreases |log|
  {
    if i < |log| - 1 && log[|log| - 1].key != log[i].key {
      LastOfKey(log[..|log| - 1], i);
    }
  }

  /** Each replay key is admitted at most once ever, unless an earlier admission was at second zero. */
  lemma {:induction false} ReplayAdmittedOnce(requests: seq<Request>)
    ensures OncePerKey(Run(requests).log)
    decreases |requests|
  {
    if requests != [] {
      var front, r := requests[..|requests| - 1], requests[|requests| - 1];
      var before, log := Run(front), Run(requests).log;
      ReplayAdmittedOnce(front);
      RunRefines(front);
      forall i, j | 0 <= i < j < |log| && log[i].key == log[j].key ensures log[i].now == 0 {
        if j == |before.log| {
          LastOfKey(before.log, i);
          assert ReplayKey(log[i].key) in before.storage;
        }
      }
    }
  }

  /** A key admitted before is detected as a replay exactly when its last admission was not at second zero. */
  lemma ReplayDetectedExactly(requests: seq<Request>, r: Request)
    requires r.safe && Distance(r.now, r.timestamp) <= r.windowSeconds
    requires LastAdmitted(Run(requests).log, r.replayKey).Some?
    ensures Decide(Run(requests).storage, r) == ReplayDetected <==>
            LastAdmitted(Run(requests).log, r.replayKey) != Some(0)
  {
    RunRefines(requests);
    assert ReplayKey(r.replayKey) in Run(requests).storage;
  }

  /**
   The decision on any request after any run, by the admissions so far: refused out of its window; else a
   replay if its key was last admitted after second zero; else limited if its minute is full; else admitted.
   */
  lemma DecidedExactly(requests: seq<Request>, r: Request)
    ensures var log, decision := Run(requests).log, Decide(Run(requests).storage, r);
            var inWindow := r.safe && r.now - r.windowSeconds <= r.timestamp <= r.now + r.windowSeconds;
            var seen := LastAdmitted(log, r.replayKey).Some? && LastAdmitted(log, r.replayKey).value > 0;
            && (decision == WindowExceeded <==> !inWindow)
            && (decision == ReplayDetected <==> inWindow && seen)
            && (decision == RateLimited <==> inWindow && !seen && InBucket(log, r.now / 60) >= r.limit)
            && (decision == Allowed <==> inWindow && !seen && InBucket(log, r.now / 60) < r.limit)
  {
    RunRefines(requests);
    assert ReplayKey(r.replayKey) in Run(requests).storage <==> LastAdmitted(Run(requests).log, r.replayKey).Some?;
  }

  /**
   And second zero is a real exception: any request in its window that is sent twice there is admitted
   twice, if and only if the limit leaves room for two.
   */
  lemma ReplayAtSecondZero(r: Request)
    requires r.safe && r.now == 0 && Distance(0, r.timestamp) <= r.windowSeconds
    ensures var a := Admission(r.replayKey, 0); Run([r, r]).log == [a, a] <==> r.limit >= 2
  {
    var a := Admission(r.replayKey, 0);
    KeysApart(r.replayKey, r.replayKey, 0, 0);
    assert [r][..0] == [] && [r, r][..1] == [r] && [a][..0] == [];
    RunRefines([r]);
    assert Run([r]).log == if r.limit >= 1 then [a] else [];
    assert Used(Run([r]).storage, 0) == |Run([r]).log|;
    assert Run([r]).log + [a] == [a, a] || r.limit < 1;
  }

  predicate LimitedTo(requests: seq<Request>, limit: nat) {
    forall i :: 0 <= i < |requests| ==> requests[i].limit == limit
  }

  lemma BucketStep(before: State, r: Request, bucket: nat)
    requires Refines(before.storage, before.log) && InBucket(before.log, bucket) <= r.limit
    ensures Decide(before.storage, r).Allowed? ==>
              InBucket(before.log + [Admission(r.replayKey, r.now)], bucket) <= r.limit
  {
    LogSnoc(before.log, Admission(r.replayKey, r.now), "", bucket);
    assert Used(before.storage, bucket) == InBucket(before.log, bucket);
  }

  /** No minute admits more than the limit. */
  lemma {:induction false} BucketLimited(requests: seq<Request>, limit: nat, bucket: nat)
    requires LimitedTo(requests, limit)
    ensures InBucket(Run(requests).log, bucket) <= limit
    decreases |requests|
  {
    if requests != [] {
      var front := requests[..|requests| - 1];
      BucketLimited(front, limit, bucket);
      RunRefines(front);
      BucketStep(Run(front), requests[|requests| - 1], bucket);
    }
  }

  /** Admissions in the sixty seconds from a moment on. */
  function InMinuteFrom(log: seq<Admission>, start: nat): nat {
    if log == [] then 0 else
    InMinuteFrom(log[..|log| - 1], start) + if start <= log[|log| - 1].now < start + 60 then 1 else 0
  }

  lemma {:induction false} MinuteSpansTwoBuckets(log: seq<Admission>, start: nat)
    ensures InMinuteFrom(log, start) <= InBucket(log, start / 60) + InBucket(log, start / 60 + 1)
    decreases |log|
  {
    if log != [] {
      MinuteSpansTwoBuckets(log[..|log| - 1], start);
    }
  }

  /** Any sixty consecutive seconds admit at most twice the limit. */
  lemma AnyMinuteLimited(requests: seq<Request>, limit: nat, start: nat)
    requires LimitedTo(requests, limit)
    ensures InMinuteFrom(Run(requests).log, start) <= 2 * limit
  {
    MinuteSpansTwoBuckets(Run(requests).log, start);
    BucketLimited(requests, limit, start / 60);
    BucketLimited(requests, limit, start / 60 + 1);
  }
}
