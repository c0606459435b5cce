/** What the rate limiter keeps over whole runs: the window bound, and evictions nobody can notice. */
module RateLimitRuns {
  import Sets
  import opened Durations
  import opened Wrappers
  import opened RateLimit

  datatype Call = Call(request: Request, cleaned: Buckets, decision: Decision)

  /** A run of the limiter from its creation; `states` has one entry more than `calls`. */
  ghost predicate IsRun(limits: Limits, states: seq<Limiter>, calls: seq<Call>) {
    && |states| == |calls| + 1
    && states[0] == Limiter(map[], 0)
    && forall i | 0 <= i < |calls| ::
      TakeStep(limits, states[i], calls[i].request, calls[i].cleaned, states[i + 1], calls[i].decision)
  }

  /** The part of a step the window bound needs: some buckets may go, one is taken from. */
  ghost predicate TraceStep(before: Buckets, call: Call, after: Buckets) {
    && SubMap(call.cleaned, before)
    && if !Enforced(call.request.policy) then after == before
       else
         var (b, d) := TakeFrom(call.request.policy, Lookup(call.cleaned, BucketKey(call.request)), call.request.now);
         call.decision == d && after == call.cleaned[BucketKey(call.request) := b]
  }

  ghost predicate IsTrace(states: seq<Buckets>, calls: seq<Call>) {
    && |states| == |calls| + 1
    && states[0] == map[]
    && forall i | 0 <= i < |calls| :: TraceStep(states[i], calls[i], states[i + 1])
  }

  function BucketStates(states: seq<Limiter>): seq<Buckets> {
    seq(|states|, i requires 0 <= i < |states| => states[i].buckets)
  }

  lemma RunIsTrace(limits: Limits, states: seq<Limiter>, calls: seq<Call>)
    requires IsRun(limits, states, calls)
    ensures IsTrace(BucketStates(states), calls)
  {
  }

  // ---------------------------------------------------------------- the window bound

  predicate Hits(call: Call, key: string) {
    Enforced(call.request.policy) && BucketKey(call.request) == key
  }

  /** Requests for `key` allowed by the calls from index `i` up to but not including `j`. */
  function Allowed(calls: seq<Call>, key: string, i: nat, j: nat): nat
    requires i <= j <= |calls|
  {
    if i == j then 0
    else Allowed(calls, key, i, j - 1) + if Hits(calls[j - 1], key) && calls[j - 1].decision.allowed then 1 else 0
  }

  predicate OnePolicy(calls: seq<Call>, key: string, policy: Policy) {
    forall i | 0 <= i < |calls| && Hits(calls[i], key) :: calls[i].request.policy == policy
  }

  predicate SameLifetime(states: seq<Buckets>, calls: seq<Call>, key: string, i: nat, j: nat)
    requires |states| == |calls| + 1 && i <= j <= |calls|
  {
    forall k | i <= k < j && key in states[k] :: key in calls[k].cleaned
  }

  lemma {:induction false} TokensAlwaysInRange(states: seq<Buckets>, calls: seq<Call>, key: string, policy: Policy,
                                               n: nat)
    requires IsTrace(states, calls) && OnePolicy(calls, key, policy) && n <= |calls|
    ensures key in states[n] ==> InRange(policy, states[n][key])
  {
    if n > 0 {
      TokensAlwaysInRange(states, calls, key, policy, n - 1);
      assert TraceStep(states[n - 1], calls[n - 1], states[n]);
      if Hits(calls[n - 1], key) {
        TokensStayInRange(policy, Lookup(calls[n - 1].cleaned, key), calls[n - 1].request.now);
      }
    }
  }

  /** The instant from which refills count: the start of the window, or the last refill if that is later. */
  function Base(had: Option<Bucket>, lo: int): int {
    if had.Some? && had.value.updatedAt > lo then had.value.updatedAt else lo
  }

  /** Allowed requests and tokens left never exceed the burst and what was refilled since `base`. */
  predicate Bounded(rate: real, burst: real, count: nat, had: Option<Bucket>, base: int, hi: int) {
    match had
    case None => count == 0
    case Some(b) =>
      if b.updatedAt < base then count == 0
      else
        && (b.updatedAt <= hi || b.updatedAt == base)
        && count as real + b.tokens <= burst + (b.updatedAt - base) as real * rate
  }

  lemma BoundedRefill(rate: real, burst: real, count: nat, had: Option<Bucket>, base: int, lo: int, hi: int, now: int)
    requires rate > 0.0 && burst > 0.0 && lo <= now <= hi && lo <= base
    requires had.Some? ==> 0.0 <= had.value.tokens <= burst
    requires had.None? || had.value.updatedAt < base ==> base == lo
    requires Bounded(rate, burst, count, had, base, hi)
    ensures var b := RefilledAt(rate, burst, had, now);
      Bounded(rate, burst, count, Some(b), base, hi) && b.updatedAt >= base
  {
  }

  /** Taking a token moves it from the bucket to the count. */
  lemma BoundedStep(policy: Policy, count: nat, had: Option<Bucket>, base: int, lo: int, hi: int, now: int)
    requires Enforced(policy) && lo <= now <= hi && lo <= base
    requires had.Some? ==> InRange(policy, had.value)
    requires had.None? || had.value.updatedAt < base ==> base == lo
    requires Bounded(Rate(policy), policy.burst as real, count, had, base, hi)
    ensures var (b, d) := TakeFrom(policy, had, now);
      Bounded(Rate(policy), policy.burst as real, count + (if d.allowed then 1 else 0), Some(b), base, hi)
      && b.updatedAt >= base
  {
    RatePositive(policy);
    BoundedRefill(Rate(policy), policy.burst as real, count, had, base, lo, hi, now);
  }

  /** The bound a bounded count gives at the end of the window. */
  lemma BoundedCount(rate: real, burst: real, count: nat, had: Option<Bucket>, base: int, lo: int, hi: int)
    requires rate > 0.0 && burst > 0.0 && lo <= hi && lo <= base
    requires had.Some? ==> 0.0 <= had.value.tokens
    requires Bounded(rate, burst, count, had, base, hi)
    ensures count as real <= burst + (hi - lo) as real * rate
  {
  }

  lemma {:induction false} WindowInvariant(states: seq<Buckets>, calls: seq<Call>, key: string, policy: Policy,
                                           i: nat, j: nat, lo: int, hi: int)
    requires IsTrace(states, calls) && OnePolicy(calls, key, policy) && Enforced(policy)
    requires i <= j <= |calls| && SameLifetime(states, calls, key, i, j)
    requires forall k | i <= k < j && Hits(calls[k], key) :: lo <= calls[k].request.now <= hi
    ensures var had, base := Lookup(states[j], key), Base(Lookup(states[i], key), lo);
      && Bounded(Rate(policy), policy.burst as real, Allowed(calls, key, i, j), had, base, hi)
      && (had.None? || had.value.updatedAt < base ==> base == lo)
    decreases j
  {
    hide Rate, TakeFrom, TraceStep, InRange;
    var base := Base(Lookup(states[i], key), lo);
    TokensAlwaysInRange(states, calls, key, policy, j);
    if i < j {
      WindowInvariant(states, calls, key, policy, i, j - 1, lo, hi);
      TokensAlwaysInRange(states, calls, key, policy, j - 1);
      OneBucket(states[j - 1], calls[j - 1], states[j], key);
      hide IsTrace;
      if Hits(calls[j - 1], key) {
        BoundedStep(policy, Allowed(calls, key, i, j - 1), Lookup(states[j - 1], key), base, lo, hi,
                    calls[j - 1].request.now);
      }
    }
  }

  /** What a step does to the bucket of one key that it does not evict. */
  lemma OneBucket(before: Buckets, call: Call, after: Buckets, key: string)
    requires TraceStep(before, call, after) && (key in before ==> key in call.cleaned)
    ensures !Hits(call, key) ==> Lookup(after, key) == Lookup(before, key)
    ensures Hits(call, key) ==>
      var (b, d) := TakeFrom(call.request.policy, Lookup(before, key), call.request.now);
      Lookup(after, key) == Some(b) && call.decision == d
  {
  }

  /** Within one lifetime of a bucket, the requests allowed in any stretch of calls are at most the burst
      plus the rate times the length of the time window they fall in. */
  lemma WindowBound(states: seq<Buckets>, calls: seq<Call>, key: string, policy: Policy, i: nat, j: nat, lo: int,
                    hi: int)
    requires IsTrace(states, calls) && OnePolicy(calls, key, policy) && Enforced(policy)
    requires i <= j <= |calls| && SameLifetime(states, calls, key, i, j) && lo <= hi
    requires forall k | i <= k < j && Hits(calls[k], key) :: lo <= calls[k].request.now <= hi
    ensures Allowed(calls, key, i, j) as real <= policy.burst as real + (hi - lo) as real * Rate(policy)
  {
    hide Rate, TakeFrom, TraceStep;
    WindowInvariant(states, calls, key, policy, i, j, lo, hi);
    TokensAlwaysInRange(states, calls, key, policy, j);
    RatePositive(policy);
    BoundedCount(Rate(policy), policy.burst as real, Allowed(calls, key, i, j), Lookup(states[j], key),
                 Base(Lookup(states[i], key), lo), lo, hi);
  }

  // ---------------------------------------------------------------- eviction is invisible

  /** The limiter that never evicts anything. */
  function ReferenceStep(buckets: Buckets, request: Request): (r: (Buckets, Decision)) {
    if !Enforced(request.policy) then (buckets, Decision(true, 0, 0, 0, false))
    else
      var (b, d) := TakeFrom(request.policy, Lookup(buckets, BucketKey(request)), request.now);
      (buckets[BucketKey(request) := b], d)
  }

  function Reference(calls: seq<Call>, n: nat): Buckets
    requires n <= |calls|
  {
    if n == 0 then map[] else ReferenceStep(Reference(calls, n - 1), calls[n - 1].request).0
  }

  /** An idle bucket is full again, and its last audit too old to matter, by the time it may be evicted. */
  predicate ForgettableWhenIdle(limits: Limits, policy: Policy) {
    (limits.idleTTL + 1) as real * Rate(policy) >= policy.burst as real && limits.idleTTL + 1 >= MINUTE
  }

  predicate SameBucket(e: Bucket, r: Bucket) {
    && e.tokens == r.tokens && e.updatedAt == r.updatedAt && e.lastSeen == r.lastSeen
    && (e.lastBlockedAudit == r.lastBlockedAudit
        || (e.lastBlockedAudit.None? && r.lastBlockedAudit.Some? && r.lastSeen - r.lastBlockedAudit.value >= MINUTE))
  }

  predicate Sound(b: Bucket, now: int) {
    && b.updatedAt == b.lastSeen <= now && b.tokens >= 0.0
    && (b.lastBlockedAudit.Some? ==> b.lastBlockedAudit.value <= b.lastSeen)
  }

  /** The evicting table holds the reference buckets, except some that were idle. */
  predicate Similar(limits: Limits, evicting: Buckets, reference: Buckets, now: int) {
    && (forall key | key in evicting :: key in reference && SameBucket(evicting[key], reference[key]))
    && (forall key | key in reference :: Sound(reference[key], now))
    && (forall key | key in reference && key !in evicting :: reference[key].lastSeen < now - limits.idleTTL)
  }

  /** Buckets that are alike once refilled give the same answer and stay alike. */
  lemma AlikeTake(policy: Policy, e: Option<Bucket>, r: Option<Bucket>, now: int)
    requires Enforced(policy)
    requires var b := Refilled(policy, r, now);
      SameBucket(Refilled(policy, e, now), b) && Sound(b, now) && b.lastSeen == now
    ensures var (e', de), (r', dr) := TakeFrom(policy, e, now), TakeFrom(policy, r, now);
      de == dr && SameBucket(e', r') && Sound(r', now)
  {
    hide Refilled, RetryAfter;
  }

  lemma RefillKeepsSound(policy: Policy, r: Bucket, now: int)
    requires Enforced(policy) && Sound(r, now)
    ensures var b := Refilled(policy, Some(r), now);
      Sound(b, now) && b.updatedAt == b.lastSeen == now && b.lastBlockedAudit == r.lastBlockedAudit
  {
    RatePositive(policy);
    hide Rate;
    NonNegativeProduct((now - r.updatedAt) as real, Rate(policy));
  }

  lemma SameTake(policy: Policy, e: Bucket, r: Bucket, now: int)
    requires Enforced(policy) && SameBucket(e, r) && Sound(r, now)
    ensures var (e', de), (r', dr) := TakeFrom(policy, Some(e), now), TakeFrom(policy, Some(r), now);
      de == dr && SameBucket(e', r') && Sound(r', now)
  {
    hide Rate, TakeFrom;
    RefillKeepsSound(policy, r, now);
    AlikeTake(policy, Some(e), Some(r), now);
  }

  lemma LongerIdle(idle: real, least: real, rate: real)
    requires idle >= least && rate > 0.0
    ensures idle * rate >= least * rate
  {
    NonNegativeProduct(idle - least, rate);
    assert idle * rate == least * rate + (idle - least) * rate;
  }

  lemma RefillsFully(limits: Limits, policy: Policy, r: Bucket, now: int)
    requires Enforced(policy) && ForgettableWhenIdle(limits, policy)
    requires Sound(r, now) && r.lastSeen < now - limits.idleTTL
    ensures Refilled(policy, Some(r), now).tokens == policy.burst as real
  {
    RatePositive(policy);
    hide Rate;
    LongerIdle((now - r.updatedAt) as real, (limits.idleTTL + 1) as real, Rate(policy));
  }

  lemma ForgottenTake(limits: Limits, policy: Policy, r: Bucket, now: int)
    requires Enforced(policy) && ForgettableWhenIdle(limits, policy)
    requires Sound(r, now) && r.lastSeen < now - limits.idleTTL
    ensures var (e', de), (r', dr) := TakeFrom(policy, None, now), TakeFrom(policy, Some(r), now);
      de == dr && SameBucket(e', r') && Sound(r', now)
  {
    hide Rate, TakeFrom;
    RefillsFully(limits, policy, r, now);
    RefillKeepsSound(policy, r, now);
    AlikeTake(policy, None, Some(r), now);
  }

  lemma SimilarStep(limits: Limits, limiter: Limiter, reference: Buckets, call: Call, next: Limiter, now: int)
    requires Similar(limits, limiter.buckets, reference, now) && now <= call.request.now
    requires TakeStep(limits, limiter, call.request, call.cleaned, next, call.decision)
    requires |limiter.buckets| < limits.maxKeys
    requires Enforced(call.request.policy) ==> ForgettableWhenIdle(limits, call.request.policy)
    ensures ReferenceStep(reference, call.request).1 == call.decision
    ensures Similar(limits, next.buckets, ReferenceStep(reference, call.request).0, call.request.now)
  {
    var request := call.request;
    if Enforced(request.policy) {
      var alive := NotIdle(limiter.buckets, limits, request.now);
      assert alive.Keys <= limiter.buckets.Keys;
      Sets.SubsetSize(alive.Keys, limiter.buckets.Keys);
      assert call.cleaned == limiter.buckets || call.cleaned == alive;
      assert Similar(limits, call.cleaned, reference, request.now);
      var key := BucketKey(request);
      if key in call.cleaned {
        SameTake(request.policy, call.cleaned[key], reference[key], request.now);
      } else if key in reference {
        ForgottenTake(limits, request.policy, reference[key], request.now);
      }
    }
  }

  lemma SimilarEmpty(limits: Limits, now: int)
    ensures Similar(limits, map[], map[], now)
  {
  }

  predicate TimeMovesOn(calls: seq<Call>) {
    forall i, j | 0 <= i < j < |calls| :: calls[i].request.now <= calls[j].request.now
  }

  /** Nobody can tell: while the key limit is not reached, every decision, the audit flag included,
      is the one the limiter without eviction takes. */
  lemma {:induction false} EvictionIsInvisible(limits: Limits, states: seq<Limiter>, calls: seq<Call>, n: nat)
    requires IsRun(limits, states, calls) && TimeMovesOn(calls) && n <= |calls|
    requires forall i | 0 <= i < |calls| :: |states[i].buckets| < limits.maxKeys
    requires forall i | 0 <= i < |calls| && Enforced(calls[i].request.policy) ::
      ForgettableWhenIdle(limits, calls[i].request.policy)
    ensures n > 0 ==> Similar(limits, states[n].buckets, Reference(calls, n), calls[n - 1].request.now)
    ensures forall i | 0 <= i < n :: calls[i].decision == ReferenceStep(Reference(calls, i), calls[i].request).1
  {
    hide Rate, TakeFrom, TakeStep, Similar, ReferenceStep, ForgettableWhenIdle;
    if n > 0 {
      EvictionIsInvisible(limits, states, calls, n - 1);
      var now := if n > 1 then calls[n - 2].request.now else calls[n - 1].request.now;
      if n == 1 {
        SimilarEmpty(limits, now);
      }
      assert TakeStep(limits, states[n - 1], calls[n - 1].request, calls[n - 1].cleaned, states[n],
                      calls[n - 1].decision);
      SimilarStep(limits, states[n - 1], Reference(calls, n - 1), calls[n - 1], states[n], now);
    }
  }

  /** The calls of a run, as the limiter without eviction would have made them. */
  function ReferenceCalls(calls: seq<Call>): (others: seq<Call>)
    ensures |others| == |calls|
    ensures forall i | 0 <= i < |calls| :: others[i] == calls[i].(cleaned := Reference(calls, i))
  {
    seq(|calls|, i requires 0 <= i < |calls| => calls[i].(cleaned := Reference(calls, i)))
  }

  function ReferenceStates(calls: seq<Call>): (states: seq<Buckets>)
    ensures |states| == |calls| + 1
    ensures forall i | 0 <= i <= |calls| :: states[i] == Reference(calls, i)
  {
    seq(|calls| + 1, i requires 0 <= i <= |calls| => Reference(calls, i))
  }

  lemma ReferenceIsTrace(calls: seq<Call>, n: nat)
    requires n < |calls| && calls[n].decision == ReferenceStep(Reference(calls, n), calls[n].request).1
    ensures TraceStep(Reference(calls, n), ReferenceCalls(calls)[n], Reference(calls, n + 1))
  {
  }

  /** So the window bound holds over the whole run, across every eviction. */
  lemma WindowBoundAcrossEvictions(limits: Limits, states: seq<Limiter>, calls: seq<Call>, key: string,
                                   policy: Policy, i: nat, j: nat, lo: int, hi: int)
    requires IsRun(limits, states, calls) && TimeMovesOn(calls)
    requires forall n | 0 <= n < |calls| :: |states[n].buckets| < limits.maxKeys
    requires forall n | 0 <= n < |calls| && Enforced(calls[n].request.policy) ::
      ForgettableWhenIdle(limits, calls[n].request.policy)
    requires OnePolicy(calls, key, policy) && Enforced(policy) && i <= j <= |calls| && lo <= hi
    requires forall k | i <= k < j && Hits(calls[k], key) :: lo <= calls[k].request.now <= hi
    ensures Allowed(calls, key, i, j) as real <= policy.burst as real + (hi - lo) as real * Rate(policy)
  {
    hide Rate, TakeFrom, TakeStep, TraceStep, Similar, ReferenceStep, ForgettableWhenIdle;
    EvictionIsInvisible(limits, states, calls, |calls|);
    ReferenceTrace(calls);
    var others := ReferenceCalls(calls);
    WindowBound(ReferenceStates(calls), others, key, policy, i, j, lo, hi);
    SameCount(calls, others, key, i, j);
  }

  lemma ReferenceStart(calls: seq<Call>)
    ensures Reference(calls, 0) == map[]
  {
  }

  lemma ReferenceTrace(calls: seq<Call>)
    requires forall n | 0 <= n < |calls| :: calls[n].decision == ReferenceStep(Reference(calls, n), calls[n].request).1
    ensures IsTrace(ReferenceStates(calls), ReferenceCalls(calls))
  {
    hide TraceStep, ReferenceStep, Reference, ReferenceStates, ReferenceCalls;
    ReferenceStart(calls);
    var states, others := ReferenceStates(calls), ReferenceCalls(calls);
    forall n | 0 <= n < |others| ensures TraceStep(states[n], others[n], states[n + 1]) {
      ReferenceIsTrace(calls, n);
    }
  }

  lemma {:induction false} SameCount(calls: seq<Call>, others: seq<Call>, key: string, i: nat, j: nat)
    requires |calls| == |others| && i <= j <= |calls|
    requires forall k | 0 <= k < |calls| ::
      calls[k].request == others[k].request && calls[k].decision == others[k].decision
    ensures Allowed(calls, key, i, j) == Allowed(others, key, i, j)
  {
    if i < j {
      SameCount(calls, others, key, i, j - 1);
    }
  }
}
