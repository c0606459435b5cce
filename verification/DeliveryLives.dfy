/** The life of a delivery: when it is tried, tried again and given up, for one record and over whole runs. */
module DeliveryLives {
  import opened Wrappers
  import opened Durations
  import opened Delivery
  import opened DeliveryStore
  import opened Flush
  import opened DeliveryRuns

  // ---------------------------------------------------------------- one record

  /** One attempt to deliver a record, and when it was over. */
  datatype Attempt = Sent(at: int) | Failed(error: string, at: int)

  function AfterAttempt(r: Record, a: Attempt): Record {
    match a
    case Sent(at) => SentRecord(r, at)
    case Failed(error, at) => FailedRecord(r, error, at)
  }

  function AfterAttempts(r: Record, attempts: seq<Attempt>): Record {
    if attempts == [] then r
    else AfterAttempt(AfterAttempts(r, attempts[..|attempts| - 1]), attempts[|attempts| - 1])
  }

  /** One second after the first attempt, twice as long after each further one, sixty-four seconds at most. */
  function Pause(attempts: nat): int {
    SECOND * (if attempts <= 1 then 1 else if attempts == 2 then 2 else if attempts == 3 then 4
              else if attempts == 4 then 8 else if attempts == 5 then 16 else if attempts == 6 then 32 else 64)
  }

  lemma PauseIsDelay(attempts: nat)
    ensures RetryDelay(attempts) == Pause(attempts)
  {
    assert Power2(3) == 8 && Power2(6) == 64;
  }

  lemma {:induction false} AttemptsCount(r: Record, attempts: seq<Attempt>)
    ensures AfterAttempts(r, attempts).attemptCount == r.attemptCount + |attempts|
    ensures SameIdentity(AfterAttempts(r, attempts), r)
  {
    hide RetryDelay;
    if attempts != [] {
      AttemptsCount(r, attempts[..|attempts| - 1]);
    }
  }

  /** A record that has not expired dies exactly of a failure from the eighth attempt on. After any other attempt it is
      due again exactly when the pause after that attempt is over, until it expires. */
  lemma DiesAtEighth(r: Record, attempts: seq<Attempt>, now: int)
    requires r.attemptCount == 0 && attempts != [] && attempts[|attempts| - 1].at < r.expiresAt
    ensures var after, last := AfterAttempts(r, attempts), attempts[|attempts| - 1];
      && (after.status == Dead <==> last.Failed? && |attempts| >= 8)
      && (after.status != Dead ==>
            (Due(after, r.installationID, now) <==> last.at + Pause(|attempts|) <= now < r.expiresAt))
  {
    var before := attempts[..|attempts| - 1];
    AttemptsCount(r, before);
    PauseIsDelay(|attempts|);
    hide RetryDelay, Pause;
  }

  /** A record that was created is due from then on until it expires, an acknowledged or dead one never. */
  lemma DueFromTheStart(r: Record, now: int, later: int)
    requires r.status == Pending
    ensures Due(Prepared(r, now), r.installationID, later) <==>
      (if r.availableAt == 0 then now else r.availableAt) <= later
      && later < (if r.expiresAt == 0 then now + DAY else r.expiresAt)
    ensures !Due(AckedRecord(r, now), r.installationID, later) && !Due(r.(status := Dead), r.installationID, later)
  {
  }

  // ---------------------------------------------------------------- over runs

  /** The step is an attempt to deliver the record. */
  predicate Tries(w: World, action: Action, id: string) {
    && id in w.records && (action.MarkDelivered? || action.ChargeFailure?)
    && Sends(w, action.installationID) && Head(w, action.installationID).id == id
  }

  /** How often the record was tried in the first steps of a run. */
  function Attempts(worlds: seq<World>, actions: seq<Action>, n: nat, id: string): nat
    requires n <= |actions| < |worlds|
  {
    if n == 0 then 0
    else Attempts(worlds, actions, n - 1, id) + if Tries(worlds[n - 1], actions[n - 1], id) then 1 else 0
  }

  /** Attempts are counted, and a record is dead only after eight of them or when it has expired. */
  predicate LifeSound(w: World, attempts: nat, id: string) {
    if id in w.records then
      && w.records[id].attemptCount == attempts
      && (w.records[id].status == Dead ==> attempts >= 8 || w.now >= w.records[id].expiresAt)
    else id !in w.used ==> attempts == 0
  }

  lemma EnqueueKeepsLife(w: World, r: Record, outcome: Result<Enqueued, StoreError>, w': World, attempts: nat,
                         id: string)
    requires Sound(w) && Step(w, Enqueue(r, outcome), w') && LifeSound(w, attempts, id)
    ensures LifeSound(w', attempts, id)
  {
    EnqueueOnly(w.records, r, w.now, w'.records, outcome);
    hide EnqueueStep, Valid, BatchesSound, Swept;
  }

  /** Enqueueing adds at most the new record; what stays is as clean-up leaves it. */
  lemma EnqueueOnly(before: Records, r: Record, now: int, after: Records, outcome: Result<Enqueued, StoreError>)
    requires EnqueueStep(before, r, now, after, outcome)
    ensures forall id | id in after && id != r.id :: id in before && CleanRecord(before[id], now) == Some(after[id])
    ensures r.id in after && r.id !in before ==> after[r.id] == Prepared(r, now)
  {
  }

  lemma TrialKeepsLife(w: World, action: Action, w': World, attempts: nat, id: string)
    requires Sound(w) && Step(w, action, w') && LifeSound(w, attempts, id)
    requires action.MarkDelivered? || action.ChargeFailure?
    ensures LifeSound(w', attempts + if Tries(w, action, id) then 1 else 0, id)
  {
    hide RetryDelay, Valid, BatchesSound;
  }

  lemma OtherKeepsLife(w: World, action: Action, w': World, attempts: nat, id: string)
    requires Sound(w) && Step(w, action, w') && LifeSound(w, attempts, id)
    requires !action.Enqueue? && !action.MarkDelivered? && !action.ChargeFailure?
    ensures LifeSound(w', attempts, id)
  {
    hide RetryDelay, Valid, BatchesSound, EnqueueStep, Flush.Pending;
  }

  lemma StepKeepsLife(w: World, action: Action, w': World, attempts: nat, id: string)
    requires Sound(w) && Step(w, action, w') && LifeSound(w, attempts, id)
    ensures LifeSound(w', attempts + if Tries(w, action, id) then 1 else 0, id)
  {
    hide Sound, Step, LifeSound;
    match action {
      case Enqueue(r, outcome) => EnqueueKeepsLife(w, r, outcome, w', attempts, id);
      case MarkDelivered(_) => TrialKeepsLife(w, action, w', attempts, id);
      case ChargeFailure(_, _) => TrialKeepsLife(w, action, w', attempts, id);
      case _ => OtherKeepsLife(w, action, w', attempts, id);
    }
  }

  lemma {:induction false} LifeIsSound(worlds: seq<World>, actions: seq<Action>, n: nat, id: string)
    requires IsRun(worlds, actions) && n <= |actions|
    ensures LifeSound(worlds[n], Attempts(worlds, actions, n, id), id)
  {
    hide Step, Sound, Tries;
    if n > 0 {
      LifeIsSound(worlds, actions, n - 1, id);
      ReachableIsSound(worlds, actions, n - 1);
      StepKeepsLife(worlds[n - 1], actions[n - 1], worlds[n], Attempts(worlds, actions, n - 1, id), id);
    }
  }

  /** In every run a record counts its attempts, sends and failures alike, and is given up only after eight of them or
      when it has expired. */
  lemma GivenUpOnlyThen(worlds: seq<World>, actions: seq<Action>, n: nat, id: string)
    requires IsRun(worlds, actions) && n <= |actions| && id in worlds[n].records
    ensures worlds[n].records[id].attemptCount == Attempts(worlds, actions, n, id)
    ensures worlds[n].records[id].status == Dead ==>
      Attempts(worlds, actions, n, id) >= 8 || worlds[n].now >= worlds[n].records[id].expiresAt
  {
    LifeIsSound(worlds, actions, n, id);
  }

  // ---------------------------------------------------------------- until something settles it

  /** The step tries, acknowledges or revokes the record. */
  predicate Settles(w: World, action: Action, id: string) {
    id in w.records &&
    var r := w.records[id];
    match action
    case MarkDelivered(_) => Tries(w, action, id)
    case ChargeFailure(_, _) => Tries(w, action, id)
    case AcknowledgeSend(i) =>
      i in w.flushing && w.flushing[i].acking.Some? && KeyOf(w.flushing[i].acking.value.record) == KeyOf(r)
    case ClientAck(key) => key == KeyOf(r)
    case ClientAckThrough(i, target) => i == r.installationID && r.createdAt <= target
    case Revoke(i) => i == r.installationID
    case _ => false
  }

  lemma EnqueueLeaves(before: Records, r: Record, now: int, after: Records, outcome: Result<Enqueued, StoreError>,
                      id: string)
    requires Valid(before) && EnqueueStep(before, r, now, after, outcome) && r.id !in before
    requires id in before && Live(before[id], now)
    ensures id in after && after[id] == before[id]
  {
    hide EnqueueStep, Valid, CleanRecord, Swept;
    EnqueueKeeps(before, r, now, after, outcome);
    EnqueueOnly(before, r, now, after, outcome);
    LiveIsClean(before[id], now);
  }

  lemma LiveIsClean(r: Record, now: int)
    requires Live(r, now)
    ensures CleanRecord(r, now) == Some(r)
  {
  }

  lemma FlushLeaves(w: World, action: Action, w': World, id: string)
    requires Step(w, action, w') && !Settles(w, action, id) && id in w.records
    requires action.MarkDelivered? || action.ChargeFailure? || action.AcknowledgeSend?
    ensures id in w'.records && w'.records[id] == w.records[id]
  {
    hide SentRecord, FailedRecord, AckedRecord;
  }

  lemma RestLeaves(w: World, action: Action, w': World, id: string)
    requires Step(w, action, w') && !Settles(w, action, id) && id in w.records && Live(w.records[id], w'.now)
    requires !(action.MarkDelivered? || action.ChargeFailure? || action.AcknowledgeSend? || action.Enqueue?)
    ensures id in w'.records && w'.records[id] == w.records[id]
  {
    hide SentRecord, FailedRecord, AckedRecord, CleanRecord, EnqueueStep, Flush.Pending, MarkSentIn, MarkFailedIn;
    if action.CleanUp? {
      LiveIsClean(w.records[id], w.now);
    }
  }

  /** Until then a record that has not expired stays as it is. */
  lemma UnsettledStays(w: World, action: Action, w': World, id: string)
    requires Sound(w) && Step(w, action, w') && !Settles(w, action, id)
    requires id in w.records && Live(w.records[id], w'.now)
    ensures id in w'.records && w'.records[id] == w.records[id]
  {
    UsedIds(w);
    TimePasses(w, action, w');
    if action.Enqueue? {
      hide Valid, Sound, EnqueueStep;
      EnqueueLeaves(w.records, action.record, w.now, w'.records, action.outcome, id);
    } else {
      hide Step, Sound, Settles, Valid, Live;
      if action.MarkDelivered? || action.ChargeFailure? || action.AcknowledgeSend? {
        FlushLeaves(w, action, w', id);
      } else {
        RestLeaves(w, action, w', id);
      }
    }
  }

  /** A due record is in the next flush of its device, unless that is full of records that come before it. */
  predicate Next(records: Records, r: Record, now: int) {
    var batch := Flush.Pending(records, r.installationID, FLUSH_LIMIT, now);
    r in batch || (|batch| == FLUSH_LIMIT && forall k | 0 <= k < |batch| :: Before(batch[k], r))
  }

  lemma DueIsNext(records: Records, id: string, now: int)
    requires Valid(records) && id in records && Due(records[id], records[id].installationID, now)
    ensures Next(records, records[id], now)
  {
    hide Flush.Pending, Valid, Before, Due;
    var r := records[id];
    if r !in Flush.Pending(records, r.installationID, FLUSH_LIMIT, now) {
      PendingLeavesOutLast(records, r.installationID, FLUSH_LIMIT, now, id);
    }
  }

  // ---------------------------------------------------------------- how far an acknowledgement reaches

  /** Acknowledging through a record: everything that a flush of the device sends before it, and the record itself, is
      never sent again. What was created later, and what is for other devices, stays as it is. */
  lemma AckReachesEarlier(records: Records, target: Record, at: int, id: string)
    requires id in records && target.id in records && records[target.id] == target
    ensures var after := AckThroughIn(records, target.installationID, target.createdAt, at);
      && after.Keys == records.Keys && SameIdentity(after[id], records[id])
      && (id == target.id || (records[id].installationID == target.installationID && Before(records[id], target)) ==>
            after[id].status == Acked && forall later :: !Due(after[id], target.installationID, later))
      && (records[id].installationID != target.installationID || records[id].createdAt > target.createdAt ==>
            after[id] == records[id])
  {
  }

  /** Acknowledging one record: exactly the record of that device and event is never sent again. */
  lemma AckReachesOne(records: Records, key: Key, at: int, id: string)
    requires id in records
    ensures var after := AckIn(records, key, at);
      && after.Keys == records.Keys && SameIdentity(after[id], records[id])
      && (KeyOf(records[id]) == key ==>
            after[id].status == Acked && forall later :: !Due(after[id], key.installationID, later))
      && (KeyOf(records[id]) != key ==> after[id] == records[id])
  {
  }

  // ---------------------------------------------------------------- how long a record is kept

  /** Clean-up gives up what has expired without an acknowledgement. It removes an acknowledged record exactly when the
      acknowledgement is more than seven days old, and a dead one exactly when it was created that long ago. */
  lemma KeptForAWeek(records: Records, id: string, now: int)
    requires id in records
    ensures var r, after := records[id], Swept(records, now);
      && (r.status == Acked && r.ackedAt != 0 ==>
            (id in after <==> now <= r.ackedAt + 7 * 24 * HOUR) && (id in after ==> after[id] == r))
      && (r.status == Acked && r.ackedAt == 0 ==> id in after && after[id] == r)
      && (r.status != Acked && now < r.expiresAt && r.status != Dead ==> id in after && after[id] == r)
      && (r.status != Acked && (now >= r.expiresAt || r.status == Dead) ==>
            (id in after <==> now <= r.createdAt + 7 * 24 * HOUR) && (id in after ==> after[id] == r.(status := Dead)))
  {
  }

  /** So an acknowledged record is kept for seven days from its acknowledgement. */
  lemma AckedIsKept(records: Records, key: Key, id: string, at: int, now: int)
    requires id in records && KeyOf(records[id]) == key && at != 0
    ensures id in Swept(AckIn(records, key, at), now) <==> now <= at + 7 * 24 * HOUR
  {
    KeptForAWeek(AckIn(records, key, at), id, now);
  }

  // ---------------------------------------------------------------- what a delivery means

  /** What went over a socket is sent again after the pause until the client acknowledges it; what went any other way is
      done with, and a missing connection leaves a socket's record as it is. */
  lemma DeliveredMeans(records: Records, id: string, at: int, now: int)
    requires id in records && records[id].id == id && records[id].attemptCount >= 0
    ensures var r := records[id];
      && (Due(Settle(records, r, true, Delivered, at)[id], r.installationID, now) <==>
            at + Pause(r.attemptCount + 1) <= now < r.expiresAt)
      && !Due(Settle(records, r, false, Delivered, at)[id], r.installationID, now)
      && Settle(records, r, true, NoConnection, at) == records
  {
    PauseIsDelay(records[id].attemptCount + 1);
    hide RetryDelay, Pause;
  }
}
