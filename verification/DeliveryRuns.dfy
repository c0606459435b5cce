/** Deliveries over whole runs: flushes of different devices, acknowledgements, clean-ups and revocations in any
    order. */
module DeliveryRuns {
  import opened Wrappers
  import opened Delivery
  import opened DeliveryStore
  import opened Flush

  /** A record that was sent, and when. */
  datatype Sending = Sending(record: Record, at: int)

  /** A flush under way for one device: what it still has to send, a send it still has to acknowledge, and whether it
      goes to the device's socket, as its registration said at the start. */
  datatype Progress = Progress(batch: seq<Record>, acking: Option<Sending>, socket: bool)

  /** `failures` counts the failed attempts charged to each record, `used` all identifiers handed out. */
  datatype World = World(records: Records, flushing: map<string, Progress>, failures: map<string, nat>,
                         used: set<string>, now: int)

  datatype Action =
    | Enqueue(record: Record, outcome: Result<Enqueued, StoreError>)
    | StartFlush(installationID: string, socket: bool)
    | MarkDelivered(installationID: string)
    | AcknowledgeSend(installationID: string)
    | ChargeFailure(installationID: string, error: string)
    | FindNoConnection(installationID: string)
    | EndFlush(installationID: string)
    | ClientAck(key: Key)
    | ClientAckThrough(installationID: string, target: int)
    | CleanUp
    | Revoke(installationID: string)
    | Wait(until: int)

  const START := World(map[], map[], map[], {}, 1)

  function Charged(failures: map<string, nat>, id: string): nat {
    if id in failures then failures[id] else 0
  }

  /** A device has a flush that is about to send its next record. */
  predicate Sends(w: World, installationID: string) {
    installationID in w.flushing && w.flushing[installationID].acking.None? && w.flushing[installationID].batch != []
  }

  function Head(w: World, installationID: string): Record
    requires Sends(w, installationID)
  {
    w.flushing[installationID].batch[0]
  }

  /** The first record is sent. Only the socket's clients acknowledge themselves. */
  function Advanced(p: Progress, now: int): Progress
    requires p.batch != []
  {
    p.(batch := p.batch[1..], acking := if p.socket then None else Some(Sending(p.batch[0], now)))
  }

  ghost predicate Step(w: World, action: Action, w': World) {
    match action
    case Enqueue(record, outcome) =>
      && record.id !in w.used && record.status == Pending && record.attemptCount == 0
      && EnqueueStep(w.records, record, w.now, w'.records, outcome)
      && w' == w.(records := w'.records, used := w.used + {record.id})
    case StartFlush(installationID, socket) =>
      && installationID !in w.flushing
      && var batch := Flush.Pending(w.records, installationID, FLUSH_LIMIT, w.now);
      w' == w.(flushing := w.flushing[installationID := Progress(batch, None, socket)])
    case MarkDelivered(installationID) =>
      && Sends(w, installationID)
      && w' == w.(records := MarkSentIn(w.records, Head(w, installationID).id, w.now),
                  flushing := w.flushing[installationID := Advanced(w.flushing[installationID], w.now)])
    case AcknowledgeSend(installationID) =>
      && installationID in w.flushing && w.flushing[installationID].acking.Some?
      && var p := w.flushing[installationID];
         w' == w.(records := AckIn(w.records, KeyOf(p.acking.value.record), p.acking.value.at),
                  flushing := w.flushing[installationID := p.(acking := None)])
    case ChargeFailure(installationID, error) =>
      && Sends(w, installationID)
      && var id := Head(w, installationID).id;
         w' == w.(records := MarkFailedIn(w.records, id, error, w.now),
                  failures := if id in w.records then w.failures[id := Charged(w.failures, id) + 1] else w.failures,
                  flushing := w.flushing - {installationID})
    case FindNoConnection(installationID) =>
      && Sends(w, installationID) && w.flushing[installationID].socket
      && w' == w.(flushing := w.flushing - {installationID})
    case EndFlush(installationID) =>
      && installationID in w.flushing && w.flushing[installationID].batch == []
      && w.flushing[installationID].acking.None?
      && w' == w.(flushing := w.flushing - {installationID})
    case ClientAck(key) => w' == w.(records := AckIn(w.records, key, w.now))
    case ClientAckThrough(installationID, target) =>
      w' == w.(records := AckThroughIn(w.records, installationID, target, w.now))
    case CleanUp => w' == w.(records := Swept(w.records, w.now))
    case Revoke(installationID) => w' == w.(records := WithoutInstallation(w.records, installationID))
    case Wait(until) => until >= w.now && w' == w.(now := until)
  }

  // ---------------------------------------------------------------- the invariant

  /** Attempts cover failures, and a record that used up its attempts is completed for good. */
  ghost predicate CountsSound(records: Records, failures: map<string, nat>, used: set<string>) {
    && (forall id | id in records :: id in used && records[id].attemptCount >= Charged(failures, id))
    && (forall id | id in failures :: id in used && failures[id] <= MAX_ATTEMPTS)
    && (forall id | id in failures && failures[id] == MAX_ATTEMPTS && id in records :: Completed(records[id]))
  }

  /** Batches hold records of their own device, each once, that have attempts left. */
  ghost predicate BatchSound(w: World, installationID: string, batch: seq<Record>) {
    && (forall i | 0 <= i < |batch| :: EntrySound(w, installationID, batch[i].id))
    && (forall i, j | 0 <= i < j < |batch| :: batch[i].id != batch[j].id)
  }

  predicate EntrySound(w: World, installationID: string, id: string) {
    id in w.used && Charged(w.failures, id) < MAX_ATTEMPTS
    && (id in w.records ==> w.records[id].installationID == installationID)
  }

  ghost predicate BatchesSound(w: World) {
    forall installationID | installationID in w.flushing ::
      BatchSound(w, installationID, w.flushing[installationID].batch)
  }

  ghost predicate Sound(w: World) {
    Valid(w.records) && CountsSound(w.records, w.failures, w.used) && BatchesSound(w)
  }

  /** The records of the second table are records of the first with the same identity, except new ones. */
  ghost predicate Descends(before: Records, after: Records, used: set<string>) {
    forall id | id in after && id in used :: id in before && after[id].installationID == before[id].installationID
  }

  /** Batches stay sound when records keep their devices and no batched record is charged. */
  lemma BatchesKeep(w: World, w': World)
    requires BatchesSound(w) && w.used <= w'.used && Descends(w.records, w'.records, w.used)
    requires forall installationID | installationID in w'.flushing ::
      installationID in w.flushing && w'.flushing[installationID].batch == w.flushing[installationID].batch
    requires forall installationID, i | installationID in w'.flushing && 0 <= i < |w'.flushing[installationID].batch| ::
      var id := w'.flushing[installationID].batch[i].id;
      Charged(w'.failures, id) == Charged(w.failures, id)
    ensures BatchesSound(w')
  {
  }

  /** A change of records that lowers no attempt count, keeps identities and leaves completed and
      acknowledged records so. */
  ghost predicate Harmless(before: Records, after: Records) {
    forall id | id in after :: id in before && HarmlessRecord(before[id], after[id])
  }

  predicate HarmlessRecord(before: Record, after: Record) {
    && SameIdentity(after, before) && after.attemptCount >= before.attemptCount
    && (Completed(before) ==> Completed(after)) && (before.status == Acked ==> after.status == Acked)
  }

  lemma HarmlessKeeps(w: World, w': World)
    requires Sound(w) && Harmless(w.records, w'.records) && w'.failures == w.failures && w'.used == w.used
    requires forall installationID | installationID in w'.flushing ::
      installationID in w.flushing && w'.flushing[installationID].batch == w.flushing[installationID].batch
    ensures Sound(w')
  {
    ChangesKeepValid(w.records, w'.records) by {
      assert w'.records.Keys <= w.records.Keys;
    }
    hide Valid;
    assert CountsSound(w'.records, w'.failures, w'.used);
    hide CountsSound;
    BatchesKeep(w, w');
  }

  lemma SweepIsHarmless(records: Records, now: int)
    ensures Harmless(records, Swept(records, now))
  {
  }

  lemma AckIsHarmless(records: Records, key: Key, at: int)
    ensures Harmless(records, AckIn(records, key, at))
  {
  }

  lemma AckThroughIsHarmless(records: Records, installationID: string, target: int, at: int)
    ensures Harmless(records, AckThroughIn(records, installationID, target, at))
  {
  }

  lemma SameIsHarmless(records: Records)
    ensures Harmless(records, records)
  {
  }

  /** Enqueueing brings in at most the new record; the rest is as after a clean-up. */
  lemma EnqueueChanges(before: Records, r: Record, now: int, after: Records, outcome: Result<Enqueued, StoreError>)
    requires Valid(before) && EnqueueStep(before, r, now, after, outcome) && r.id !in before
    ensures Harmless(before, after - {r.id})
    ensures r.id in after ==> after[r.id].attemptCount == r.attemptCount
  {
    var swept := Swept(before, now);
    SweepKeeps(before, now);
    SweepIsHarmless(before, now);
    assert forall id | id in swept :: id in before;
    hide Swept, CleanRecord, HarmlessRecord, Valid, KeepsLive;
    if !HasKey(swept, KeyOf(r)) && Complete(r) {
      if outcome.Err? {
        RoomKeeps(swept, after, now);
      } else {
        var room :| MadeRoom(swept, room) && |room| < MAX_RECORDS && after == room[r.id := Prepared(r, now)];
        RoomKeeps(swept, room, now);
      }
    }
  }

  lemma EnqueueKeepsCounts(before: Records, after: Records, failures: map<string, nat>, used: set<string>, r: Record)
    requires CountsSound(before, failures, used) && r.id !in used && Harmless(before, after - {r.id})
    requires r.id in after ==> after[r.id].attemptCount == 0
    ensures CountsSound(after, failures, used + {r.id}) && Descends(before, after, used)
  {
  }

  lemma EnqueueKeepsSound(w: World, r: Record, outcome: Result<Enqueued, StoreError>, w': World)
    requires Sound(w) && Step(w, Enqueue(r, outcome), w')
    ensures Sound(w')
  {
    hide EnqueueStep, Valid, KeepsLive, EntrySound, HarmlessRecord, Complete;
    assert r.id !in w.records;
    EnqueueKeeps(w.records, r, w.now, w'.records, outcome);
    EnqueueChanges(w.records, r, w.now, w'.records, outcome);
    hide Harmless, CountsSound;
    EnqueueKeepsCounts(w.records, w'.records, w.failures, w.used, r);
    BatchesKeep(w, w');
  }

  lemma StartKeepsSound(w: World, installationID: string, socket: bool, w': World)
    requires Sound(w) && Step(w, StartFlush(installationID, socket), w')
    ensures Sound(w')
  {
    hide Flush.Pending, Valid, Before;
    var batch := Flush.Pending(w.records, installationID, FLUSH_LIMIT, w.now);
    PendingIsOrdered(w.records, installationID, FLUSH_LIMIT, w.now);
    forall i | 0 <= i < |batch| ensures EntrySound(w', installationID, batch[i].id) {
      assert w.records[batch[i].id] == batch[i] && !Completed(batch[i]);
      assert Charged(w.failures, batch[i].id) <= MAX_ATTEMPTS;
    }
    assert BatchSound(w', installationID, batch);
    forall other | other in w'.flushing ensures BatchSound(w', other, w'.flushing[other].batch) {
      if other != installationID {
        var theirs := w.flushing[other].batch;
        assert BatchSound(w, other, theirs);
        assert forall i | 0 <= i < |theirs| :: EntrySound(w, other, theirs[i].id);
      }
    }
  }

  /** One record changes, and at most its own count of failures. */
  lemma UpdateKeepsCounts(w: World, id: string, r: Record, w': World)
    requires CountsSound(w.records, w.failures, w.used) && id in w.records
    requires w'.records == w.records[id := r] && w'.used == w.used
    requires w'.failures == w.failures || w'.failures == w.failures[id := Charged(w.failures, id) + 1]
    requires Charged(w'.failures, id) <= r.attemptCount && Charged(w'.failures, id) <= MAX_ATTEMPTS
    requires Charged(w'.failures, id) == MAX_ATTEMPTS ==> Completed(r)
    ensures CountsSound(w'.records, w'.failures, w'.used)
  {
  }

  lemma UpdateKeepsRest(w: World, id: string, r: Record, w': World)
    requires Valid(w.records) && id in w.records && SameIdentity(r, w.records[id]) && w'.records == w.records[id := r]
    ensures Valid(w'.records) && Descends(w.records, w'.records, w.used)
  {
  }

  /** Going on to the next record of a batch keeps batches sound. */
  lemma AdvanceKeeps(w: World, installationID: string, p: Progress)
    requires BatchesSound(w) && Sends(w, installationID) && p.batch == w.flushing[installationID].batch[1..]
    ensures BatchesSound(w.(flushing := w.flushing[installationID := p]))
    ensures EntrySound(w, installationID, Head(w, installationID).id)
  {
  }

  lemma DeliverKeepsSound(w: World, installationID: string, w': World)
    requires Sound(w) && Step(w, MarkDelivered(installationID), w')
    ensures Sound(w')
  {
    hide RetryDelay, Valid, BatchesSound;
    var r := Head(w, installationID);
    AdvanceKeeps(w, installationID, Advanced(w.flushing[installationID], w.now));
    if r.id in w.records {
      UpdateKeepsCounts(w, r.id, SentRecord(w.records[r.id], w.now), w');
      UpdateKeepsRest(w, r.id, SentRecord(w.records[r.id], w.now), w');
    }
    hide CountsSound, SentRecord;
    BatchesKeep(w.(flushing := w'.flushing), w');
  }

  lemma FailureKeepsBatches(w: World, installationID: string, w': World)
    requires BatchesSound(w) && Sends(w, installationID) && w'.used == w.used
    requires Descends(w.records, w'.records, w.used)
    requires w'.flushing == w.flushing - {installationID}
    requires var id := Head(w, installationID).id;
      w'.failures == if id in w.records then w.failures[id := Charged(w.failures, id) + 1] else w.failures
    ensures BatchesSound(w')
  {
  }

  lemma ChargedBelow(w: World, installationID: string, id: string)
    requires EntrySound(w, installationID, id)
    ensures Charged(w.failures, id) < MAX_ATTEMPTS
  {
  }

  lemma AttemptsCover(w: World, id: string)
    requires CountsSound(w.records, w.failures, w.used) && id in w.records
    ensures Charged(w.failures, id) <= w.records[id].attemptCount
  {
  }

  lemma FailedCompletes(r: Record, error: string, at: int)
    ensures var failed := FailedRecord(r, error, at);
      SameIdentity(failed, r) && failed.attemptCount == r.attemptCount + 1
      && (failed.attemptCount >= MAX_ATTEMPTS ==> Completed(failed))
  {
  }

  lemma FailureKeepsSound(w: World, installationID: string, error: string, w': World)
    requires Sound(w) && Step(w, ChargeFailure(installationID, error), w')
    ensures Sound(w')
  {
    hide RetryDelay, Valid, BatchesSound, CountsSound, EntrySound, Completed, FailedRecord, SameIdentity;
    var id := Head(w, installationID).id;
    AdvanceKeeps(w, installationID, Advanced(w.flushing[installationID], w.now));
    ChargedBelow(w, installationID, id);
    ChargeKeepsRecords(w, id, error, w');
    FailureKeepsBatches(w, installationID, w');
  }

  lemma ChargeKeepsRecords(w: World, id: string, error: string, w': World)
    requires Valid(w.records) && CountsSound(w.records, w.failures, w.used) && Charged(w.failures, id) < MAX_ATTEMPTS
    requires w'.records == MarkFailedIn(w.records, id, error, w.now) && w'.used == w.used
    requires w'.failures == if id in w.records then w.failures[id := Charged(w.failures, id) + 1] else w.failures
    ensures Valid(w'.records) && CountsSound(w'.records, w'.failures, w'.used)
    ensures Descends(w.records, w'.records, w.used)
  {
    hide Valid, CountsSound, Completed, FailedRecord, SameIdentity;
    if id in w.records {
      AttemptsCover(w, id);
      FailedCompletes(w.records[id], error, w.now);
      UpdateKeepsCounts(w, id, FailedRecord(w.records[id], error, w.now), w');
      UpdateKeepsRest(w, id, FailedRecord(w.records[id], error, w.now), w');
    }
  }

  lemma OtherKeepsSound(w: World, action: Action, w': World)
    requires Sound(w) && Step(w, action, w')
    requires !action.Enqueue? && !action.StartFlush? && !action.MarkDelivered? && !action.ChargeFailure?
    ensures Sound(w')
  {
    hide Valid, CountsSound, BatchSound, HarmlessRecord, Swept, AckIn, AckThroughIn;
    match action {
      case AcknowledgeSend(installationID) =>
        var sent := w.flushing[installationID].acking.value;
        AckIsHarmless(w.records, KeyOf(sent.record), sent.at);
      case ClientAck(key) => AckIsHarmless(w.records, key, w.now);
      case ClientAckThrough(installationID, target) => AckThroughIsHarmless(w.records, installationID, target, w.now);
      case CleanUp => SweepIsHarmless(w.records, w.now);
      case _ => SameIsHarmless(w.records);
    }
    HarmlessKeeps(w, w');
  }

  lemma StepKeepsSound(w: World, action: Action, w': World)
    requires Sound(w) && Step(w, action, w')
    ensures Sound(w')
  {
    hide *;
    match action {
      case Enqueue(record, outcome) => EnqueueKeepsSound(w, record, outcome, w');
      case StartFlush(installationID, socket) => StartKeepsSound(w, installationID, socket, w');
      case MarkDelivered(installationID) => DeliverKeepsSound(w, installationID, w');
      case ChargeFailure(installationID, error) => FailureKeepsSound(w, installationID, error, w');
      case _ => OtherKeepsSound(w, action, w');
    }
  }

  // ---------------------------------------------------------------- runs

  ghost predicate IsRun(worlds: seq<World>, actions: seq<Action>) {
    && |worlds| == |actions| + 1 && worlds[0] == START
    && forall i | 0 <= i < |actions| :: Step(worlds[i], actions[i], worlds[i + 1])
  }

  lemma UsedIds(w: World)
    requires Sound(w)
    ensures Valid(w.records) && forall id | id in w.records :: id in w.used
  {
  }

  lemma TimePasses(w: World, action: Action, w': World)
    requires Step(w, action, w')
    ensures w.now <= w'.now && w.used <= w'.used
  {
    hide EnqueueStep, Flush.Pending, AckIn, AckThroughIn, Swept, MarkSentIn, MarkFailedIn, WithoutInstallation;
  }

  /** What happens from a given state on. */
  ghost predicate Continues(w: World, worlds: seq<World>, actions: seq<Action>) {
    && |worlds| == |actions| + 1 && worlds[0] == w
    && forall i | 0 <= i < |actions| :: Step(worlds[i], actions[i], worlds[i + 1])
  }

  lemma Precede(w: World, action: Action, worlds: seq<World>, actions: seq<Action>)
    requires |worlds| > 0 && Continues(worlds[0], worlds, actions) && Step(w, action, worlds[0])
    ensures Continues(w, [w] + worlds, [action] + actions)
  {
    hide Step;
    var worlds', actions' := [w] + worlds, [action] + actions;
    forall i | 0 <= i < |actions'| ensures Step(worlds'[i], actions'[i], worlds'[i + 1]) {
      if i > 0 {
        assert worlds'[i] == worlds[i - 1] && actions'[i] == actions[i - 1] && worlds'[i + 1] == worlds[i];
      } else {
        assert worlds'[1] == worlds[0];
      }
    }
  }

  lemma {:induction false} ReachableIsSound(worlds: seq<World>, actions: seq<Action>, n: nat)
    requires IsRun(worlds, actions) && n <= |actions|
    ensures Sound(worlds[n])
  {
    hide Step;
    if n > 0 {
      hide Sound;
      ReachableIsSound(worlds, actions, n - 1);
      StepKeepsSound(worlds[n - 1], actions[n - 1], worlds[n]);
    }
  }

  /** In every reachable state each device and event has one record, the table is within its limit,
      and no record was ever charged more than eight failed attempts. */
  lemma AtMostEightFailures(worlds: seq<World>, actions: seq<Action>, n: nat, id: string)
    requires IsRun(worlds, actions) && n <= |actions|
    ensures Valid(worlds[n].records) && Charged(worlds[n].failures, id) <= MAX_ATTEMPTS
  {
    ReachableIsSound(worlds, actions, n);
  }

  // ---------------------------------------------------------------- nothing due is lost

  lemma ChangesKeepLive(w: World, action: Action, w': World)
    requires Step(w, action, w') && !action.Enqueue? && !action.CleanUp? && !action.Revoke?
    ensures w'.records.Keys == w.records.Keys && forall id | id in w.records ::
      SameIdentity(w'.records[id], w.records[id])
  {
    hide RetryDelay, Flush.Pending;
  }

  /** No step but the revocation of its device removes a record that is still due. */
  lemma StepKeepsLive(w: World, action: Action, w': World)
    requires Sound(w) && Step(w, action, w')
    ensures !action.Revoke? ==> KeepsLive(w.records, w'.records, w.now)
    ensures action.Revoke? ==>
      forall id | id in w.records && w.records[id].installationID != action.installationID ::
        id in w'.records && w'.records[id] == w.records[id]
  {
    hide Valid, BatchesSound, EnqueueStep, Swept, AckIn, AckThroughIn, MarkSentIn, MarkFailedIn, Flush.Pending;
    match action {
      case Enqueue(record, outcome) => EnqueueKeeps(w.records, record, w.now, w'.records, outcome);
      case CleanUp => SweepKeeps(w.records, w.now);
      case Revoke(installationID) =>
      case _ => ChangesKeepLive(w, action, w');
    }
  }

  /** A record stays for as long as it is due, unless its device is revoked. */
  lemma {:induction false} DueRecordsSurvive(worlds: seq<World>, actions: seq<Action>, i: nat, j: nat, id: string)
    requires IsRun(worlds, actions) && i <= j <= |actions|
    requires id in worlds[i].records
    requires forall k | i <= k < j && id in worlds[k].records :: Live(worlds[k].records[id], worlds[k].now)
    requires forall k | i <= k < j && actions[k].Revoke? ::
      actions[k].installationID != worlds[i].records[id].installationID
    ensures id in worlds[j].records && SameIdentity(worlds[j].records[id], worlds[i].records[id])
    decreases j
  {
    hide Step, Sound, Live;
    if i < j {
      DueRecordsSurvive(worlds, actions, i, j - 1, id);
      ReachableIsSound(worlds, actions, j - 1);
      StepKeepsLive(worlds[j - 1], actions[j - 1], worlds[j]);
    }
  }
}
