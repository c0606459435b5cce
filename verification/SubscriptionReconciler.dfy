/** Reconciling Twitch's subscriptions with the desired ones, when any delete or create may fail. */
module SubscriptionReconciler {
  import opened Wrappers
  import opened Registrations
  import opened SpecKey
  import opened Subscriptions

  datatype Subscription = Subscription(status: string, spec: Spec, callback: string)

  /** The subscriptions Twitch holds for the application, by identifier. Identifiers are handed out in order. */
  type Remote = map<nat, Subscription>

  /** What a remote call did: took effect, did nothing and failed, or took effect with the answer lost. */
  datatype Outcome = Done | Refused | AnswerLost

  predicate UsableStatus(status: string) {
    status == "enabled" || status == "webhook_callback_verification_pending"
  }

  /** Only a subscription that works or is being verified counts. */
  lemma UsableIff(status: string)
    ensures UsableStatus(status) <==> status in ["enabled", "webhook_callback_verification_pending"]
  {
  }

  predicate Usable(s: Subscription) {
    UsableStatus(s.status)
  }

  predicate Own(remote: Remote, callback: string, id: nat) {
    id in remote && remote[id].callback == callback
  }

  function IdKey(remote: Remote, id: nat): string
    requires id in remote
  {
    KeyOf(remote[id].spec)
  }

  /** The listing names every subscription once. */
  ghost predicate IsListing(listing: seq<nat>, remote: Remote) {
    && (forall id :: id in listing <==> id in remote)
    && forall i, j | 0 <= i < j < |listing| :: listing[i] != listing[j]
  }

  /** Exactly one usable own subscription for every desired key, and no other own subscription. */
  ghost predicate Converged(remote: Remote, callback: string, desired: map<string, Spec>) {
    && (forall id | Own(remote, callback, id) :: Usable(remote[id]) && IdKey(remote, id) in desired)
    && (forall i, j | Own(remote, callback, i) && Own(remote, callback, j) && IdKey(remote, i) == IdKey(remote, j) ::
          i == j)
    && (forall key | key in desired :: exists id | id in remote ::
          remote[id].callback == callback && IdKey(remote, id) == key)
  }

  /** Subscriptions of other callbacks are the same in both. */
  predicate OthersUntouched(was: Remote, now: Remote, callback: string) {
    && (forall id | id in was && was[id].callback != callback :: id in now && now[id] == was[id])
    && (forall id | id in now && now[id].callback != callback :: id in was && was[id] == now[id])
  }

  // ---------------------------------------------------------------- deleting

  /** What the first loop knows once it has looked at `seen`: an own subscription that is still there
      is the one kept for its key, or its key is blocked. */
  ghost predicate Swept(was: Remote, now: Remote, callback: string, desired: map<string, Spec>, seen: set<nat>,
                        keptID: map<string, nat>, blocked: set<string>) {
    && seen <= was.Keys
    && (forall id | id in now :: id in was && now[id] == was[id])
    && (forall id | id in was && (id !in seen || was[id].callback != callback) :: id in now)
    && (forall id | id in seen && id in now && now[id].callback == callback :: Settled(now, id, keptID, blocked))
    && (forall key | key in keptID ::
          key in desired && keptID[key] in seen && keptID[key] in now && IsFor(now, keptID[key], callback, key))
  }

  predicate Settled(now: Remote, id: nat, keptID: map<string, nat>, blocked: set<string>)
    requires id in now
  {
    var key := IdKey(now, id);
    key in blocked || (key in keptID && keptID[key] == id)
  }

  predicate IsFor(now: Remote, id: nat, callback: string, key: string)
    requires id in now
  {
    now[id].callback == callback && IdKey(now, id) == key && Usable(now[id])
  }

  lemma SweepSkips(was: Remote, now: Remote, callback: string, desired: map<string, Spec>, seen: set<nat>,
                   keptID: map<string, nat>, blocked: set<string>, id: nat)
    requires Swept(was, now, callback, desired, seen, keptID, blocked) && id in was && id !in seen
    requires now[id].callback != callback
    ensures Swept(was, now, callback, desired, seen + {id}, keptID, blocked)
  {
  }

  lemma SweepKeeps(was: Remote, now: Remote, callback: string, desired: map<string, Spec>, seen: set<nat>,
                   keptID: map<string, nat>, blocked: set<string>, id: nat, key: string)
    requires Swept(was, now, callback, desired, seen, keptID, blocked) && id in was && id !in seen
    requires key in desired && key !in keptID && IsFor(now, id, callback, key)
    ensures Swept(was, now, callback, desired, seen + {id}, keptID[key := id], blocked)
  {
    hide KeyOf, Usable;
  }

  lemma SweepDeletes(was: Remote, now: Remote, callback: string, desired: map<string, Spec>, seen: set<nat>,
                     keptID: map<string, nat>, blocked: set<string>, id: nat)
    requires Swept(was, now, callback, desired, seen, keptID, blocked) && id in was && id !in seen
    requires now[id].callback == callback
    ensures Swept(was, now - {id}, callback, desired, seen + {id}, keptID, blocked)
  {
    hide KeyOf, UsableStatus;
  }

  lemma SweepBlocks(was: Remote, now: Remote, callback: string, desired: map<string, Spec>, seen: set<nat>,
                    keptID: map<string, nat>, blocked: set<string>, id: nat)
    requires Swept(was, now, callback, desired, seen, keptID, blocked) && id in was && id !in seen
    requires now[id].callback == callback
    ensures Swept(was, now, callback, desired, seen + {id}, keptID, blocked + {IdKey(now, id)})
  {
    hide KeyOf, Usable;
  }

  lemma SweepMore(was: Remote, now: Remote, callback: string, desired: map<string, Spec>, seen: set<nat>,
                  keptID: map<string, nat>, blocked: set<string>, key: string)
    requires Swept(was, now, callback, desired, seen, keptID, blocked)
    ensures Swept(was, now, callback, desired, seen, keptID, blocked + {key})
  {
  }

  /** In a converged list every own subscription is kept when its turn comes. */
  lemma ConvergedIsKept(was: Remote, callback: string, desired: map<string, Spec>, seen: set<nat>,
                        keptID: map<string, nat>, blocked: set<string>, id: nat)
    requires Swept(was, was, callback, desired, seen, keptID, blocked) && Converged(was, callback, desired)
    requires id in was && id !in seen && was[id].callback == callback
    ensures IdKey(was, id) in desired && IdKey(was, id) !in keptID && Usable(was[id])
  {
    hide KeyOf, Usable;
    assert Own(was, callback, id);
    assert forall key | key in keptID :: Own(was, callback, keptID[key]);
  }

  lemma NothingSwept(was: Remote, callback: string, desired: map<string, Spec>)
    ensures Swept(was, was, callback, desired, {}, map[], {})
  {
  }

  /** One turn of the first loop. */
  method SweepOne(ghost was: Remote, had: Remote, callback: string, desired: map<string, Spec>, ghost seen: set<nat>,
                  ghost keptWas: map<string, nat>, kept: set<string>, blocked: set<string>, id: nat,
                  deletes: nat -> Outcome)
    returns (now: Remote, ghost keptID: map<string, nat>, kept': set<string>, blocked': set<string>, deleted: nat,
             failures: nat)
    requires Swept(was, had, callback, desired, seen, keptWas, blocked) && kept == keptWas.Keys
    requires id in was && id !in seen && id in had && had[id] == was[id]
    ensures Swept(was, now, callback, desired, seen + {id}, keptID, blocked') && kept' == keptID.Keys
    ensures deletes(id).Done? ==> blocked' == blocked && failures == 0 && |now| == |had| - deleted
    ensures Converged(was, callback, desired) && had == was ==>
      now == was && blocked' == blocked && deleted == 0 && failures == 0
  {
    hide KeyOf, Usable, Converged, Swept;
    now, keptID, kept', blocked', deleted, failures := had, keptWas, kept, blocked, 0, 0;
    var subscription := had[id];
    if subscription.callback != callback {
      SweepSkips(was, had, callback, desired, seen, keptWas, blocked, id);
      return;
    }
    var key := KeyOf(subscription.spec);
    if key in desired && key !in kept && Usable(subscription) {
      SweepKeeps(was, had, callback, desired, seen, keptWas, blocked, id, key);
      kept', keptID := kept + {key}, keptWas[key := id];
      return;
    }
    if Converged(was, callback, desired) && had == was {
      ConvergedIsKept(was, callback, desired, seen, keptWas, blocked, id);
      assert false;
    }
    if deletes(id).Refused? {
      SweepBlocks(was, had, callback, desired, seen, keptWas, blocked, id);
      blocked', failures := blocked + {key}, 1;
      return;
    }
    SweepDeletes(was, had, callback, desired, seen, keptWas, blocked, id);
    now := had - {id};
    assert now.Keys == had.Keys - {id};
    if deletes(id).Done? {
      deleted := 1;
    } else {
      SweepMore(was, now, callback, desired, seen + {id}, keptWas, blocked, key);
      blocked', failures := blocked + {key}, 1;
    }
  }

  method DeletePhase(was: Remote, callback: string, desired: map<string, Spec>, listing: seq<nat>,
                     deletes: nat -> Outcome)
    returns (now: Remote, ghost keptID: map<string, nat>, kept: set<string>, blocked: set<string>, deleted: nat,
             failures: nat)
    requires IsListing(listing, was)
    ensures Swept(was, now, callback, desired, was.Keys, keptID, blocked)
    ensures kept == keptID.Keys
    ensures (forall id :: deletes(id).Done?) ==> blocked == {} && failures == 0 && |now| == |was| - deleted
    ensures Converged(was, callback, desired) ==> now == was && blocked == {} && deleted == 0 && failures == 0
  {
    hide KeyOf, Usable, Converged, Settled, Swept;
    NothingSwept(was, callback, desired);
    now, kept, blocked, deleted, failures := was, {}, {}, 0, 0;
    keptID := map[];
    ghost var seen := {};
    ghost var faultless := forall id :: deletes(id).Done?;
    for i := 0 to |listing|
      invariant Swept(was, now, callback, desired, seen, keptID, blocked)
      invariant forall j | 0 <= j < |listing| :: listing[j] in seen <==> j < i
      invariant forall id | id in seen :: id in listing
      invariant kept == keptID.Keys
      invariant faultless ==> blocked == {} && failures == 0 && |now| == |was| - deleted
      invariant Converged(was, callback, desired) ==> now == was && blocked == {} && deleted == 0 && failures == 0
    {
      var id := listing[i];
      assert id in listing;
      StillThere(was, now, callback, desired, seen, keptID, blocked, id);
      var gone, missed;
      now, keptID, kept, blocked, gone, missed :=
        SweepOne(was, now, callback, desired, seen, keptID, kept, blocked, id, deletes);
      deleted, failures := deleted + gone, failures + missed;
      seen := seen + {id};
    }
    assert seen == was.Keys;
  }

  lemma StillThere(was: Remote, now: Remote, callback: string, desired: map<string, Spec>, seen: set<nat>,
                   keptID: map<string, nat>, blocked: set<string>, id: nat)
    requires Swept(was, now, callback, desired, seen, keptID, blocked) && id in was && id !in seen
    ensures id in now && now[id] == was[id]
  {
  }

  // ---------------------------------------------------------------- creating

  /** Identifiers from `next` on are not in use. */
  predicate Unused(remote: Remote, next: nat) {
    forall id | id in remote :: id < next
  }

  /** The second loop adds one subscription for each key of `addedID` and nothing else. */
  ghost predicate Grown(was: Remote, now: Remote, callback: string, desired: map<string, Spec>, skip: set<string>,
                        initialStatus: string, addedID: map<string, nat>) {
    && (forall id | id in was :: id in now && now[id] == was[id])
    && (forall id | id in now && id !in was :: IdKey(now, id) in addedID && addedID[IdKey(now, id)] == id)
    && (forall key | key in addedID :: AddedFor(was, now, callback, desired, skip, initialStatus, key, addedID[key]))
  }

  predicate AddedFor(was: Remote, now: Remote, callback: string, desired: map<string, Spec>, skip: set<string>,
                     initialStatus: string, key: string, id: nat) {
    key in desired && key !in skip && id !in was && id in now
    && now[id] == Subscription(initialStatus, desired[key], callback)
  }

  lemma NextIsUnused(now: Remote, next: nat)
    requires Unused(now, next)
    ensures next !in now
  {
  }

  lemma OneMore(now: Remote, next: nat, subscription: Subscription)
    requires Unused(now, next)
    ensures Unused(now[next := subscription], next + 1) && |now[next := subscription]| == |now| + 1
  {
  }

  lemma GrowsByOne(was: Remote, now: Remote, callback: string, desired: map<string, Spec>, skip: set<string>,
                   initialStatus: string, addedID: map<string, nat>, key: string, next: nat)
    requires Grown(was, now, callback, desired, skip, initialStatus, addedID) && next !in now && Keyed(desired)
    requires key in desired && key !in skip && key !in addedID
    ensures Grown(was, now[next := Subscription(initialStatus, desired[key], callback)], callback, desired, skip,
                  initialStatus, addedID[key := next])
  {
    hide KeyOf;
    assert KeyOf(desired[key]) == key;
    hide Keyed;
    var now' := now[next := Subscription(initialStatus, desired[key], callback)];
    var added' := addedID[key := next];
    forall id | id in now' && id !in was ensures IdKey(now', id) in added' && added'[IdKey(now', id)] == id {
      if id != next {
        assert IdKey(now', id) == IdKey(now, id);
      }
    }
    forall k | k in added' ensures AddedFor(was, now', callback, desired, skip, initialStatus, k, added'[k]) {
      assert k != key ==> AddedFor(was, now, callback, desired, skip, initialStatus, k, addedID[k]);
    }
  }

  lemma NothingGrown(was: Remote, callback: string, desired: map<string, Spec>, skip: set<string>,
                     initialStatus: string)
    ensures Grown(was, was, callback, desired, skip, initialStatus, map[])
  {
  }

  method CreatePhase(was: Remote, first: nat, callback: string, desired: map<string, Spec>, skip: set<string>,
                     creates: string -> Outcome, initialStatus: string)
    returns (now: Remote, next: nat, created: nat, failures: nat, ghost addedID: map<string, nat>)
    requires Unused(was, first) && Keyed(desired)
    ensures Grown(was, now, callback, desired, skip, initialStatus, addedID) && Unused(now, next)
    ensures forall key | key in addedID :: addedID[key] >= first
    ensures (forall key :: creates(key).Done?) ==>
      addedID.Keys == desired.Keys - skip && failures == 0 && |now| == |was| + created
    ensures desired.Keys <= skip ==> now == was && created == 0 && failures == 0
  {
    hide KeyOf, Grown, AddedFor, Unused, Keyed;
    NothingGrown(was, callback, desired, skip, initialStatus);
    now, next, created, failures := was, first, 0, 0;
    addedID := map[];
    ghost var faultless := forall key :: creates(key).Done?;
    var todo := desired.Keys;
    while todo != {}
      invariant todo <= desired.Keys
      invariant forall key | key in addedID :: key in desired && key !in skip && key !in todo
      invariant Grown(was, now, callback, desired, skip, initialStatus, addedID) && Unused(now, next)
      invariant first <= next && forall key | key in addedID :: addedID[key] >= first
      invariant faultless ==> failures == 0 && |now| == |was| + created
      invariant faultless ==> forall key | key in desired && key !in skip && key !in todo :: key in addedID
      invariant desired.Keys <= skip ==> now == was && created == 0 && failures == 0
    {
      var key :| key in todo;
      todo := todo - {key};
      if key in skip {
        continue;
      }
      if !creates(key).Refused? {
        NextIsUnused(now, next);
        GrowsByOne(was, now, callback, desired, skip, initialStatus, addedID, key, next);
        OneMore(now, next, Subscription(initialStatus, desired[key], callback));
        now, next := now[next := Subscription(initialStatus, desired[key], callback)], next + 1;
        addedID := addedID[key := next - 1];
      }
      if creates(key).Done? {
        created := created + 1;
      } else {
        failures := failures + 1;
      }
    }
  }

  // ---------------------------------------------------------------- one reconciliation

  /** Whatever fails: nothing foreign changes, and a key is created only where no own subscription is left. */
  ghost predicate Safe(was: Remote, now: Remote, callback: string) {
    && OthersUntouched(was, now, callback)
    && (forall id | id in was && id in now :: was[id] == now[id])
    && (forall made, id | made in now && made !in was && Own(now, callback, id) && IdKey(now, id) == IdKey(now, made) ::
          id == made)
  }

  lemma SweptAndGrownIsSafe(was: Remote, middle: Remote, now: Remote, callback: string, desired: map<string, Spec>,
                            keptID: map<string, nat>, blocked: set<string>, initialStatus: string,
                            addedID: map<string, nat>, first: nat)
    requires Swept(was, middle, callback, desired, was.Keys, keptID, blocked)
    requires Grown(middle, now, callback, desired, keptID.Keys + blocked, initialStatus, addedID)
    requires Unused(was, first) && forall key | key in addedID :: addedID[key] >= first
    ensures Safe(was, now, callback)
  {
    hide KeyOf, Usable;
    forall id | id in middle && middle[id].callback == callback ensures IdKey(now, id) !in addedID {
      assert Settled(middle, id, keptID, blocked);
    }
  }

  lemma SweptAndGrownConverges(was: Remote, middle: Remote, now: Remote, callback: string, desired: map<string, Spec>,
                               keptID: map<string, nat>, initialStatus: string, addedID: map<string, nat>)
    requires Swept(was, middle, callback, desired, was.Keys, keptID, {})
    requires Grown(middle, now, callback, desired, keptID.Keys, initialStatus, addedID)
    requires addedID.Keys == desired.Keys - keptID.Keys && Keyed(desired)
    requires UsableStatus(initialStatus)
    ensures Converged(now, callback, desired)
  {
    hide KeyOf, Usable;
    forall id | Own(now, callback, id)
      ensures Usable(now[id]) && IdKey(now, id) in desired
      ensures id == if IdKey(now, id) in keptID then keptID[IdKey(now, id)] else addedID[IdKey(now, id)]
    {
      if id in middle {
        assert Settled(middle, id, keptID, {});
        assert IsFor(middle, id, callback, IdKey(now, id));
      } else {
        AddedIsUsable(initialStatus, desired[IdKey(now, id)], callback);
      }
    }
    forall key | key in desired ensures exists id | id in now :: now[id].callback == callback && IdKey(now, id) == key {
      if key in keptID {
        assert IsFor(middle, keptID[key], callback, key);
        assert keptID[key] in now;
      } else {
        assert KeyOf(desired[key]) == key;
        assert addedID[key] in now;
      }
    }
  }

  lemma AddedIsUsable(initialStatus: string, spec: Spec, callback: string)
    requires UsableStatus(initialStatus)
    ensures Usable(Subscription(initialStatus, spec, callback))
  {
  }

  /** The desired list by key. */
  ghost predicate ByKey(byKey: map<string, Spec>, desired: seq<Spec>) {
    && Keyed(byKey)
    && (forall spec | spec in desired :: KeyOf(spec) in byKey)
    && (forall key | key in byKey :: byKey[key] in desired)
  }

  method IndexByKey(desired: seq<Spec>) returns (byKey: map<string, Spec>)
    ensures ByKey(byKey, desired)
  {
    hide KeyOf;
    byKey := map[];
    for i := 0 to |desired|
      invariant Keyed(byKey)
      invariant forall j | 0 <= j < i :: KeyOf(desired[j]) in byKey
      invariant forall key | key in byKey :: byKey[key] in desired
    {
      byKey := byKey[KeyOf(desired[i]) := desired[i]];
    }
  }

  /** Both loops over a given list of wishes. */
  method ReconcileRemote(was: Remote, first: nat, callback: string, desired: map<string, Spec>, listing: seq<nat>,
                         deletes: nat -> Outcome, creates: string -> Outcome, initialStatus: string)
    returns (now: Remote, next: nat, created: nat, deleted: nat, failures: nat)
    requires Keyed(desired) && IsListing(listing, was) && Unused(was, first)
    ensures Unused(now, next) && Safe(was, now, callback)
    ensures
      (forall id :: deletes(id).Done?) && (forall key :: creates(key).Done?) && UsableStatus(initialStatus)
      ==> Converged(now, callback, desired) && failures == 0 && |now| == |was| + created - deleted
    ensures Converged(was, callback, desired) ==> now == was && created == 0 && deleted == 0 && failures == 0
  {
    hide KeyOf, Usable, Converged, Swept, Safe, IsListing, Keyed, Grown, Unused;
    var middle, keptID, kept, blocked, gone, missed := DeletePhase(was, callback, desired, listing, deletes);
    UnusedAfterDelete(was, middle, callback, desired, keptID, blocked, first);
    var made, missed';
    ghost var addedID;
    now, next, made, missed', addedID :=
      CreatePhase(middle, first, callback, desired, kept + blocked, creates, initialStatus);
    created, deleted, failures := made, gone, missed + missed';
    SweptAndGrownIsSafe(was, middle, now, callback, desired, keptID, blocked, initialStatus, addedID, first);
    if (forall id :: deletes(id).Done?) && (forall key :: creates(key).Done?) && UsableStatus(initialStatus) {
      assert keptID.Keys + blocked == keptID.Keys;
      SweptAndGrownConverges(was, middle, now, callback, desired, keptID, initialStatus, addedID);
    }
    if Converged(was, callback, desired) {
      ConvergedKeepsAll(was, callback, desired, keptID);
    }
  }

  lemma UnusedAfterDelete(was: Remote, middle: Remote, callback: string, desired: map<string, Spec>,
                          keptID: map<string, nat>, blocked: set<string>, first: nat)
    requires Swept(was, middle, callback, desired, was.Keys, keptID, blocked) && Unused(was, first)
    ensures Unused(middle, first)
  {
  }

  lemma ConvergedKeepsAll(was: Remote, callback: string, desired: map<string, Spec>, keptID: map<string, nat>)
    requires Converged(was, callback, desired)
    requires Swept(was, was, callback, desired, was.Keys, keptID, {})
    ensures desired.Keys <= keptID.Keys
  {
  }

  class EventSubManager {
    const enabled: bool
    const callback: string

    /** Twitch's side. */
    var remote: Remote
    var nextID: nat

    ghost predicate Valid()
      reads this
    {
      Unused(remote, nextID)
    }

    constructor (enabled: bool, callback: string)
      ensures Valid() && this.enabled == enabled && this.callback == callback && remote == map[]
    {
      this.enabled, this.callback, remote, nextID := enabled, callback, map[], 0;
    }

    /** `failures` counts the errors joined into the returned one; a missing listing or configuration is one. */
    method Reconcile(registrations: seq<Registration>, listing: Option<seq<nat>>, deletes: nat -> Outcome,
                     creates: string -> Outcome, initialStatus: string)
      returns (created: nat, deleted: nat, failures: nat, ghost desired: seq<Spec>, ghost byKey: map<string, Spec>)
      requires Valid() && (listing.Some? ==> IsListing(listing.value, remote))
      modifies this
      ensures Valid() && Desired(registrations, desired) && ByKey(byKey, desired)
      ensures !enabled || listing.None? ==> created == 0 && deleted == 0 && failures == 1 && remote == old(remote)
      ensures Safe(old(remote), remote, callback)
      ensures
        enabled && listing.Some? && (forall id :: deletes(id).Done?) && (forall key :: creates(key).Done?)
        && UsableStatus(initialStatus)
        ==> Converged(remote, callback, byKey) && failures == 0 && |remote| == |old(remote)| + created - deleted
      ensures enabled && listing.Some? && Converged(old(remote), callback, byKey)
        ==> remote == old(remote) && created == 0 && deleted == 0 && failures == 0
    {
      hide KeyOf, Usable, Converged, Desired;
      var wanted := DesiredSubscriptions(registrations);
      var index := IndexByKey(wanted);
      desired, byKey := wanted, index;
      if !enabled || listing.None? {
        return 0, 0, 1, desired, byKey;
      }
      remote, nextID, created, deleted, failures :=
        ReconcileRemote(remote, nextID, callback, index, listing.value, deletes, creates, initialStatus);
    }
  }

  lemma KeyIsWantedToo(left: seq<Registration>, a: seq<Spec>, x: map<string, Spec>,
                       right: seq<Registration>, b: seq<Spec>, y: map<string, Spec>, key: string)
    requires Desired(left, a) && ByKey(x, a) && Desired(right, b) && ByKey(y, b)
    requires forall r | r in left :: r in right
    requires key in x
    ensures key in y
  {
    hide KeyOf, Wanted, KeyAscending;
    WantedIgnoresOrder(left, right, x[key]);
    var other :| other in b && KeyOf(other) == KeyOf(x[key]);
  }

  /** Which keys are wanted depends on the set of registrations alone. */
  lemma KeysIgnoreOrder(left: seq<Registration>, a: seq<Spec>, x: map<string, Spec>,
                        right: seq<Registration>, b: seq<Spec>, y: map<string, Spec>)
    requires Desired(left, a) && ByKey(x, a) && Desired(right, b) && ByKey(y, b)
    requires forall r :: r in left <==> r in right
    ensures x.Keys == y.Keys
  {
    hide Desired, ByKey;
    forall key | key in x ensures key in y {
      KeyIsWantedToo(left, a, x, right, b, y, key);
    }
    forall key | key in y ensures key in x {
      KeyIsWantedToo(right, b, y, left, a, x, key);
    }
  }

  lemma ConvergedByKeys(remote: Remote, callback: string, x: map<string, Spec>, y: map<string, Spec>)
    requires Converged(remote, callback, x) && x.Keys == y.Keys
    ensures Converged(remote, callback, y)
  {
    hide KeyOf, Usable;
  }

  /** A reconciliation in which every call takes effect, and another one with the same registrations in any order.
      The second finds nothing to do, so it does not matter which of its calls would fail. */
  method ReconcileAgain(manager: EventSubManager, registrations: seq<Registration>, permuted: seq<Registration>,
                        list: Remote -> seq<nat>, initialStatus: string, deletes: nat -> Outcome,
                        creates: string -> Outcome)
    returns (created: nat, deleted: nat, failures: nat)
    requires manager.Valid() && manager.enabled && UsableStatus(initialStatus)
    requires forall remote :: IsListing(list(remote), remote)
    requires forall r :: r in registrations <==> r in permuted
    modifies manager
    ensures created == 0 && deleted == 0 && failures == 0
  {
    hide KeyOf, Usable, Converged, Desired, ByKey, IsListing, Safe;
    var first, second, third, a, x :=
      manager.Reconcile(registrations, Some(list(manager.remote)), (id: nat) => Done, (key: string) => Done,
                        initialStatus);
    ghost var middle := manager.remote;
    ghost var b, y;
    created, deleted, failures, b, y :=
      manager.Reconcile(permuted, Some(list(manager.remote)), deletes, creates, initialStatus);
    KeysIgnoreOrder(registrations, a, x, permuted, b, y);
    ConvergedByKeys(middle, manager.callback, x, y);
  }
}
