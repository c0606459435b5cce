/** Callers do not get in each other's way: each policy and caller has a bucket of its own. */
module RateLimitCallers {
  import opened Durations
  import opened Text
  import opened Wrappers
  import opened RateLimit
  import opened RateLimitRuns

  /** Who asks: blank keys count as one caller. */
  function Caller(key: string): string {
    if TrimSpace(key) == "" then "unknown" else TrimSpace(key)
  }

  /** Policies are named without the separator. */
  predicate PlainName(policy: Policy) {
    '\0' !in policy.name
  }

  predicate SameCaller(a: Request, b: Request) {
    a.policy.name == b.policy.name && Caller(a.key) == Caller(b.key)
  }

  lemma SameBucketIff(a: Request, b: Request)
    requires PlainName(a.policy) && PlainName(b.policy)
    ensures BucketKey(a) == BucketKey(b) <==> SameCaller(a, b)
  {
    hide TrimSpace;
    if BucketKey(a) == BucketKey(b) {
      SplitUnique(a.policy.name, Caller(a.key), b.policy.name, Caller(b.key), '\0');
    }
  }

  /** The bucket of a caller that is alone with its own requests. */
  function Alone(calls: seq<Call>, n: nat, who: Request): Option<Bucket>
    requires n <= |calls|
  {
    if n == 0 then None
    else
      var request := calls[n - 1].request;
      if Enforced(request.policy) && SameCaller(request, who)
      then Some(TakeFrom(request.policy, Alone(calls, n - 1, who), request.now).0)
      else Alone(calls, n - 1, who)
  }

  lemma {:induction false} AloneInReference(calls: seq<Call>, n: nat, who: Request)
    requires n <= |calls| && PlainName(who.policy) && forall i | 0 <= i < |calls| :: PlainName(calls[i].request.policy)
    ensures Lookup(Reference(calls, n), BucketKey(who)) == Alone(calls, n, who)
  {
    hide TakeFrom, BucketKey, SameCaller, PlainName;
    if n > 0 {
      AloneInReference(calls, n - 1, who);
      SameBucketIff(calls[n - 1].request, who);
    }
  }

  /** What anybody else does, under another policy or another key, never changes a decision: as long as idle buckets can
      be forgotten and the limit on keys is not reached, every request is decided as if its caller were alone. */
  lemma CallersAreAlone(limits: Limits, states: seq<Limiter>, calls: seq<Call>, n: nat)
    requires IsRun(limits, states, calls) && TimeMovesOn(calls) && n < |calls|
    requires forall i | 0 <= i < |calls| :: |states[i].buckets| < limits.maxKeys
    requires forall i | 0 <= i < |calls| && Enforced(calls[i].request.policy) ::
      ForgettableWhenIdle(limits, calls[i].request.policy)
    requires forall i | 0 <= i < |calls| :: PlainName(calls[i].request.policy)
    ensures var request := calls[n].request;
      calls[n].decision ==
      if Enforced(request.policy) then TakeFrom(request.policy, Alone(calls, n, request), request.now).1
      else Decision(true, 0, 0, 0, false)
  {
    hide TakeFrom, TakeStep, Similar, ForgettableWhenIdle, PlainName, BucketKey, Alone;
    assert PlainName(calls[n].request.policy);
    EvictionIsInvisible(limits, states, calls, |calls|);
    AloneInReference(calls, n, calls[n].request);
  }

  // ---------------------------------------------------------------- what a decision tells

  /** A bucket after further requests at the same instant. */
  function Repeated(policy: Policy, b: Bucket, now: int, n: nat): Bucket
    requires Enforced(policy)
  {
    if n == 0 then b else TakeFrom(policy, Some(Repeated(policy, b, now, n - 1)), now).0
  }

  lemma {:induction false} RepeatedTokens(policy: Policy, had: Option<Bucket>, now: int, n: nat)
    requires Enforced(policy)
    ensures var (b, d) := TakeFrom(policy, had, now);
      && Repeated(policy, b, now, n).updatedAt >= now
      && Repeated(policy, b, now, n).tokens == b.tokens - (if n <= d.remaining then n else d.remaining) as real
      && b.tokens - d.remaining as real < 1.0 && (d.remaining > 0 ==> d.remaining as real <= b.tokens)
  {
    hide RetryAfter, Rate, Enforced;
    if n > 0 {
      RepeatedTokens(policy, had, now, n - 1);
    }
  }

  /** The number of requests that a decision says remain is exact: at the same instant that many more are allowed, and
      no further one. */
  lemma RemainingIsExact(policy: Policy, had: Option<Bucket>, now: int, n: nat)
    requires Enforced(policy)
    ensures var (b, d) := TakeFrom(policy, had, now);
      TakeFrom(policy, Some(Repeated(policy, b, now, n)), now).1.allowed <==> n < d.remaining
  {
    hide RetryAfter, Rate, Repeated, Enforced;
    RepeatedTokens(policy, had, now, n);
  }

  /** The decision on a request whose caller is alone. */
  function Answer(calls: seq<Call>, n: nat, who: Request): Option<Decision>
    requires n < |calls|
  {
    var request := calls[n].request;
    if Enforced(request.policy) && SameCaller(request, who)
    then Some(TakeFrom(request.policy, Alone(calls, n, who), request.now).1) else None
  }

  predicate Audited(calls: seq<Call>, n: nat, who: Request)
    requires n < |calls|
  {
    Answer(calls, n, who).Some? && Answer(calls, n, who).value.audit
  }

  lemma AuditStep(policy: Policy, had: Option<Bucket>, now: int)
    requires Enforced(policy)
    ensures var (b, d), last := TakeFrom(policy, had, now), if had.Some? then had.value.lastBlockedAudit else None;
      && (d.audit ==> !d.allowed && b.lastBlockedAudit == Some(now) && (last.Some? ==> now - last.value >= MINUTE))
      && (!d.audit ==> b.lastBlockedAudit == last && (d.allowed || (last.Some? && now - last.value < MINUTE)))
  {
    hide RetryAfter, Rate;
  }

  /** When the caller's bucket last saw an audited refusal. */
  function LastSeen(calls: seq<Call>, n: nat, who: Request): Option<int>
    requires n <= |calls|
  {
    var had := Alone(calls, n, who);
    if had.Some? then had.value.lastBlockedAudit else None
  }

  lemma SeenStep(calls: seq<Call>, n: nat, who: Request)
    requires n < |calls|
    ensures var last, now := LastSeen(calls, n, who), calls[n].request.now;
      && (Audited(calls, n, who) ==>
            LastSeen(calls, n + 1, who) == Some(now) && (last.Some? ==> now - last.value >= MINUTE))
      && (!Audited(calls, n, who) ==> LastSeen(calls, n + 1, who) == last)
  {
    hide TakeFrom, SameCaller, Enforced;
    var request := calls[n].request;
    if Answer(calls, n, who).Some? {
      AuditStep(request.policy, Alone(calls, n, who), request.now);
    }
  }

  /** The last audited refusal is the one the bucket has seen: none, or the latest. */
  lemma {:induction false} LastIsSeen(calls: seq<Call>, n: nat, who: Request) returns (latest: nat)
    requires n <= |calls|
    ensures LastSeen(calls, n, who).None? ==> forall i | 0 <= i < n :: !Audited(calls, i, who)
    ensures LastSeen(calls, n, who).Some? ==>
      && latest < n && Audited(calls, latest, who) && calls[latest].request.now == LastSeen(calls, n, who).value
      && forall i | latest < i < n :: !Audited(calls, i, who)
  {
    hide Audited, TakeFrom, SameCaller;
    latest := 0;
    if n > 0 {
      var before := LastIsSeen(calls, n - 1, who);
      SeenStep(calls, n - 1, who);
      latest := if Audited(calls, n - 1, who) then n - 1 else before;
    }
  }

  /** A caller's refusals are audited once a minute: only refusals are, and two that are lie a minute apart or more. */
  lemma AuditedOnceAMinute(calls: seq<Call>, i: nat, j: nat, who: Request)
    requires i < j < |calls| && TimeMovesOn(calls) && Audited(calls, j, who)
    ensures !Answer(calls, j, who).value.allowed
    ensures Audited(calls, i, who) ==> calls[j].request.now - calls[i].request.now >= MINUTE
  {
    hide Alone, TakeFrom;
    var request := calls[j].request;
    AuditStep(request.policy, Alone(calls, j, who), request.now);
    var latest := LastIsSeen(calls, j, who);
    SeenStep(calls, j, who);
  }

  /** Every refusal is audited, or comes less than a minute after one that is. */
  lemma RefusalIsAudited(calls: seq<Call>, j: nat, who: Request) returns (i: nat)
    requires j < |calls| && Answer(calls, j, who).Some? && !Answer(calls, j, who).value.allowed
    ensures i <= j && Audited(calls, i, who) && calls[j].request.now - calls[i].request.now < MINUTE
  {
    hide Alone, TakeFrom;
    var request := calls[j].request;
    AuditStep(request.policy, Alone(calls, j, who), request.now);
    var latest := LastIsSeen(calls, j, who);
    i := if Audited(calls, j, who) then j else latest;
  }
}
