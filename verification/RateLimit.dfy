/** The token-bucket rate limiter. Times are nanoseconds, tokens are real numbers. */
module RateLimit {
  import opened Durations
  import opened Text
  import opened Wrappers

  datatype Policy = Policy(name: string, perMinute: int, burst: int)

  datatype Decision = Decision(allowed: bool, retryAfter: int, limit: int, remaining: int, audit: bool)

  datatype Bucket = Bucket(tokens: real, updatedAt: int, lastSeen: int, lastBlockedAudit: Option<int>)

  type Buckets = map<string, Bucket>

  predicate Enforced(policy: Policy) {
    policy.perMinute > 0 && policy.burst > 0
  }

  /** Tokens gained in one nanosecond. */
  function Rate(policy: Policy): real {
    policy.perMinute as real / MINUTE as real
  }

  function Min(a: real, b: real): real {
    if a <= b then a else b
  }

  function Ceil(x: real): int {
    -((-x).Floor)
  }

  // ---------------------------------------------------------------- one bucket

  /** A bucket created full, or refilled up to the burst. */
  function RefilledAt(rate: real, burst: real, had: Option<Bucket>, now: int): Bucket {
    match had
    case None => Bucket(burst, now, now, None)
    case Some(b) =>
      if b.updatedAt < now then
        b.(tokens := Min(burst, b.tokens + (now - b.updatedAt) as real * rate), updatedAt := now, lastSeen := now)
      else b.(lastSeen := now)
  }

  /** The bucket as `take` sees it before it decides. */
  function Refilled(policy: Policy, had: Option<Bucket>, now: int): Bucket {
    RefilledAt(Rate(policy), policy.burst as real, had, now)
  }

  predicate AuditDue(b: Bucket, now: int) {
    b.lastBlockedAudit.None? || now - b.lastBlockedAudit.value >= MINUTE
  }

  function RetryAfter(policy: Policy, tokens: real): int
    requires Enforced(policy)
  {
    var wait := Ceil((1.0 - tokens) / Rate(policy));
    if wait < SECOND then SECOND else wait
  }

  function TakeFrom(policy: Policy, had: Option<Bucket>, now: int): (r: (Bucket, Decision))
    requires Enforced(policy)
  {
    var b := Refilled(policy, had, now);
    if b.tokens >= 1.0 then
      (b.(tokens := b.tokens - 1.0), Decision(true, 0, policy.perMinute, (b.tokens - 1.0).Floor, false))
    else
      (if AuditDue(b, now) then b.(lastBlockedAudit := Some(now)) else b,
       Decision(false, RetryAfter(policy, b.tokens), policy.perMinute, 0, AuditDue(b, now)))
  }

  /** Between zero and the burst. */
  predicate InRange(policy: Policy, b: Bucket) {
    0.0 <= b.tokens <= policy.burst as real
  }

  lemma TokensStayInRange(policy: Policy, had: Option<Bucket>, now: int)
    requires Enforced(policy)
    requires had.Some? ==> InRange(policy, had.value)
    ensures InRange(policy, TakeFrom(policy, had, now).0)
  {
  }

  lemma RatePositive(policy: Policy)
    requires Enforced(policy)
    ensures Rate(policy) > 0.0
  {
  }

  lemma NonNegativeProduct(a: real, b: real)
    requires a >= 0.0 && b >= 0.0
    ensures a * b >= 0.0
  {
  }

  /** A refused caller who waits as long as it is told gets through; when told more than the one second
      floor, a caller who comes back any earlier is refused again. */
  lemma RetryAfterIsExact(policy: Policy, had: Option<Bucket>, now: int, later: int)
    requires Enforced(policy)
    requires had.Some? ==> had.value.updatedAt <= now
    requires !TakeFrom(policy, had, now).1.allowed
    requires later >= now
    ensures var (b, refusal) := TakeFrom(policy, had, now);
      && (later >= now + refusal.retryAfter ==> TakeFrom(policy, Some(b), later).1.allowed)
      && (refusal.retryAfter > SECOND && later < now + refusal.retryAfter ==>
            !TakeFrom(policy, Some(b), later).1.allowed)
  {
    hide TakeFrom, Rate, RetryAfter, Refilled;
    var (b, refusal) := TakeFrom(policy, had, now);
    RefusedBucket(policy, had, now);
    AllowedIff(policy, b, later);
    LaterTokens(policy, b, now, later);
    LongEnoughIff(policy, b.tokens, later - now);
  }

  lemma AllowedIff(policy: Policy, b: Bucket, now: int)
    requires Enforced(policy)
    ensures TakeFrom(policy, Some(b), now).1.allowed <==> Refilled(policy, Some(b), now).tokens >= 1.0
  {
    hide Refilled, RetryAfter;
  }

  /** What a refusal leaves and tells. */
  lemma RefusedBucket(policy: Policy, had: Option<Bucket>, now: int)
    requires Enforced(policy) && (had.Some? ==> had.value.updatedAt <= now)
    requires !TakeFrom(policy, had, now).1.allowed
    ensures var (b, refusal) := TakeFrom(policy, had, now);
      && b.updatedAt == now && b.tokens < 1.0
      && refusal.retryAfter == RetryAfter(policy, b.tokens)
  {
    hide Rate, RetryAfter;
  }

  /** A token is there once enough time has passed for what is missing. */
  lemma LaterTokens(policy: Policy, b: Bucket, now: int, later: int)
    requires Enforced(policy) && b.updatedAt == now <= later && b.tokens < 1.0
    ensures Refilled(policy, Some(b), later).tokens >= 1.0 <==> (later - now) as real * Rate(policy) >= 1.0 - b.tokens
  {
    hide Rate;
    var passed := (later - now) as real;
    assert later == now ==> passed == 0.0 && passed * Rate(policy) == 0.0;
    assert policy.burst as real >= 1.0;
  }

  /** The time told is long enough, and above the floor no shorter time is. */
  lemma LongEnoughIff(policy: Policy, tokens: real, n: int)
    requires Enforced(policy)
    ensures n >= RetryAfter(policy, tokens) ==> n as real * Rate(policy) >= 1.0 - tokens
    ensures RetryAfter(policy, tokens) > SECOND && n < RetryAfter(policy, tokens) ==>
      n as real * Rate(policy) < 1.0 - tokens
  {
    RatePositive(policy);
    hide Rate, Ceil;
    CeilIsLeast((1.0 - tokens) / Rate(policy), n);
    DivideIff(n as real, 1.0 - tokens, Rate(policy));
  }

  lemma CeilIsLeast(x: real, n: int)
    ensures n >= Ceil(x) <==> n as real >= x
  {
  }

  lemma DivideIff(a: real, b: real, rate: real)
    requires rate > 0.0
    ensures a >= b / rate <==> a * rate >= b
  {
  }

  // ---------------------------------------------------------------- the limiter

  datatype Limits = Limits(maxKeys: nat, idleTTL: nat)

  datatype Limiter = Limiter(buckets: Buckets, operations: nat)

  datatype Request = Request(policy: Policy, key: string, now: int)

  const OPERATIONS_WRAP := 0x1_0000_0000_0000_0000

  function NextOperation(operations: nat): nat {
    (operations + 1) % OPERATIONS_WRAP
  }

  function BucketKey(request: Request): string {
    var trimmed := TrimSpace(request.key);
    request.policy.name + ['\0'] + (if trimmed == "" then "unknown" else trimmed)
  }

  function Lookup(buckets: Buckets, key: string): Option<Bucket> {
    if key in buckets then Some(buckets[key]) else None
  }

  /** The buckets not seen for longer than the idle limit are gone. */
  function NotIdle(buckets: Buckets, limits: Limits, now: int): Buckets {
    map key | key in buckets && !(buckets[key].lastSeen < now - limits.idleTTL) :: buckets[key]
  }

  predicate SubMap(small: Buckets, large: Buckets) {
    small.Keys <= large.Keys && forall key | key in small :: small[key] == large[key]
  }

  /** Eviction: idle buckets always, others only when the table is full, least recently seen first
      and no more of them than needed to make room for one. */
  predicate Cleaned(before: Buckets, after: Buckets, limits: Limits, now: int) {
    var alive := NotIdle(before, limits, now);
    && SubMap(after, alive)
    && (|alive| < limits.maxKeys ==> after == alive)
    && (|alive| >= limits.maxKeys ==> |after| == limits.maxKeys - 1)
    && forall kept, gone | kept in after && gone in alive && gone !in after ::
      alive[gone].lastSeen <= alive[kept].lastSeen
  }

  predicate CleanPhase(limiter: Limiter, limits: Limits, now: int, cleaned: Buckets) {
    if NextOperation(limiter.operations) % 256 == 0 || |limiter.buckets| >= limits.maxKeys
    then Cleaned(limiter.buckets, cleaned, limits, now)
    else cleaned == limiter.buckets
  }

  /** One call of `take`, whatever the eviction chose to keep. */
  ghost predicate TakeStep(limits: Limits, limiter: Limiter, request: Request, cleaned: Buckets, next: Limiter,
                           decision: Decision) {
    if !Enforced(request.policy) then
      next == limiter && cleaned == limiter.buckets && decision == Decision(true, 0, 0, 0, false)
    else
      && CleanPhase(limiter, limits, request.now, cleaned)
      && var (b, d) := TakeFrom(request.policy, Lookup(cleaned, BucketKey(request)), request.now);
         decision == d && next == Limiter(cleaned[BucketKey(request) := b], NextOperation(limiter.operations))
  }

  class RateLimiter {
    const limits: Limits
    var buckets: Buckets
    var operations: nat

    ghost function State(): Limiter
      reads this
    {
      Limiter(buckets, operations)
    }

    /** No bucket has the empty key, which the eviction loop uses to mean "none found yet". */
    ghost predicate Valid()
      reads this
    {
      limits.maxKeys > 0 && "" !in buckets
    }

    constructor (maxKeys: int, idleTTL: int)
      ensures Valid() && State() == Limiter(map[], 0)
      ensures limits == Limits(if maxKeys <= 0 then 50_000 else maxKeys, if idleTTL <= 0 then 30 * MINUTE else idleTTL)
    {
      limits := Limits(if maxKeys <= 0 then 50_000 else maxKeys, if idleTTL <= 0 then 30 * MINUTE else idleTTL);
      buckets := map[];
      operations := 0;
    }

    method Take(request: Request) returns (decision: Decision, ghost cleaned: Buckets)
      requires Valid()
      modifies this
      ensures Valid()
      ensures TakeStep(limits, old(State()), request, cleaned, State(), decision)
    {
      cleaned := buckets;
      if !Enforced(request.policy) {
        return Decision(true, 0, 0, 0, false), cleaned;
      }
      operations := NextOperation(operations);
      if operations % 256 == 0 || |buckets| >= limits.maxKeys {
        buckets := Cleanup(buckets, limits, request.now);
      }
      cleaned := buckets;
      var bucketKey := BucketKey(request);
      var (bucket, taken) := TakeFrom(request.policy, Lookup(buckets, bucketKey), request.now);
      buckets := buckets[bucketKey := bucket];
      decision := taken;
    }
  }

  method DropIdle(before: Buckets, limits: Limits, now: int) returns (after: Buckets)
    ensures after == NotIdle(before, limits, now)
  {
    after := before;
    var todo := before.Keys;
    while todo != {}
      invariant todo <= before.Keys
      invariant forall key :: key in after <==>
        key in before && (key in todo || !(before[key].lastSeen < now - limits.idleTTL))
      invariant forall key | key in after :: after[key] == before[key]
    {
      var key :| key in todo;
      todo := todo - {key};
      if before[key].lastSeen < now - limits.idleTTL {
        after := after - {key};
      }
    }
  }

  /** The bucket seen least recently; the empty key stands for "none found yet". */
  method OldestKey(buckets: Buckets) returns (oldestKey: string)
    requires "" !in buckets
    ensures oldestKey == "" <==> buckets == map[]
    ensures oldestKey != "" ==>
      oldestKey in buckets && forall key | key in buckets :: buckets[oldestKey].lastSeen <= buckets[key].lastSeen
  {
    oldestKey := "";
    var oldest := 0;
    var todo := buckets.Keys;
    while todo != {}
      invariant todo <= buckets.Keys
      invariant oldestKey == "" ==> todo == buckets.Keys
      invariant oldestKey != "" ==> oldestKey in buckets && oldest == buckets[oldestKey].lastSeen
      invariant oldestKey != "" ==> forall key | key in buckets && key !in todo :: oldest <= buckets[key].lastSeen
    {
      var key :| key in todo;
      todo := todo - {key};
      if oldestKey == "" || buckets[key].lastSeen < oldest {
        oldestKey, oldest := key, buckets[key].lastSeen;
      }
    }
    assert buckets == map[] <==> buckets.Keys == {};
  }

  method Cleanup(before: Buckets, limits: Limits, now: int) returns (after: Buckets)
    requires limits.maxKeys > 0 && "" !in before
    ensures Cleaned(before, after, limits, now)
  {
    after := DropIdle(before, limits, now);
    ghost var alive := after;
    while |after| >= limits.maxKeys
      invariant SubMap(after, alive)
      invariant |alive| < limits.maxKeys ==> after == alive
      invariant |alive| >= limits.maxKeys ==> |after| >= limits.maxKeys - 1
      invariant forall kept, gone | kept in after && gone in alive && gone !in after ::
        alive[gone].lastSeen <= alive[kept].lastSeen
      decreases |after|
    {
      var oldestKey := OldestKey(after);
      if oldestKey == "" {
        break;
      }
      assert |after - {oldestKey}| == |after| - 1 by {
        assert (after - {oldestKey}).Keys == after.Keys - {oldestKey};
      }
      after := after - {oldestKey};
    }
  }
}
