/** The delivery store: records updated in place by its operations, and the flush that sends them. */
module DeliveryStore {
  import opened Wrappers
  import opened Delivery
  import S = Sorting
  import T = Trimming

  datatype StoreError = NotFound | MissingFields | QueueFull

  datatype Enqueued = Enqueued(record: Record, created: bool)

  // ---------------------------------------------------------------- specification

  predicate Complete(r: Record) {
    r.id != "" && r.eventID != "" && r.installationID != ""
  }

  function Prepared(r: Record, now: int): Record {
    r.(createdAt := if r.createdAt == 0 then now else r.createdAt,
       availableAt := if r.availableAt == 0 then now else r.availableAt,
       expiresAt := if r.expiresAt == 0 then now + DAY else r.expiresAt)
  }

  predicate HasKey(records: Records, key: Key) {
    exists id | id in records :: KeyOf(records[id]) == key
  }

  /** Room for one more: nothing happens below the limit, otherwise completed records make way. */
  ghost predicate MadeRoom(before: Records, after: Records) {
    if |before| >= MAX_RECORDS then Trimmed(before, after, MAX_RECORDS - 1) else after == before
  }

  ghost predicate EnqueueStep(before: Records, r: Record, now: int, after: Records,
                              outcome: Result<Enqueued, StoreError>) {
    var swept := Swept(before, now);
    if HasKey(swept, KeyOf(r)) then
      after == swept && outcome.Ok? && !outcome.value.created && outcome.value.record.id in swept
      && swept[outcome.value.record.id] == outcome.value.record && KeyOf(outcome.value.record) == KeyOf(r)
    else if !Complete(r) then after == swept && outcome == Err(MissingFields)
    else if outcome.Err? then
      MadeRoom(swept, after) && |after| >= MAX_RECORDS && outcome == Err(QueueFull)
    else
      exists room :: MadeRoom(swept, room) && |room| < MAX_RECORDS
        && after == room[r.id := Prepared(r, now)] && outcome == Ok(Enqueued(Prepared(r, now), true))
  }

  function MarkSentIn(records: Records, id: string, at: int): Records {
    if id in records then records[id := SentRecord(records[id], at)] else records
  }

  function MarkFailedIn(records: Records, id: string, failure: string, at: int): Records {
    if id in records then records[id := FailedRecord(records[id], failure, at)] else records
  }

  function AckIn(records: Records, key: Key, at: int): Records {
    map id | id in records :: if KeyOf(records[id]) == key then AckedRecord(records[id], at) else records[id]
  }

  /** All records of a device up to and including those created with the named one. */
  function AckThroughIn(records: Records, installationID: string, target: int, at: int): Records {
    map id | id in records ::
      if records[id].installationID == installationID && records[id].createdAt <= target
      then AckedRecord(records[id], at) else records[id]
  }

  function WithoutInstallation(records: Records, installationID: string): Records {
    map id | id in records && records[id].installationID != installationID :: records[id]
  }

  // ---------------------------------------------------------------- every operation keeps the store valid

  lemma EnqueueKeeps(before: Records, r: Record, now: int, after: Records, outcome: Result<Enqueued, StoreError>)
    requires Valid(before) && EnqueueStep(before, r, now, after, outcome)
    ensures Valid(after)
    ensures r.id !in before ==> KeepsLive(before, after, now)
    ensures outcome.Ok? ==> HasKey(after, KeyOf(r))
  {
    var swept := Swept(before, now);
    SweepKeeps(before, now);
    assert r.id !in before ==> r.id !in swept;
    hide Swept, Live, Valid, KeepsLive, SameIdentity;
    if HasKey(swept, KeyOf(r)) || !Complete(r) {
      assert outcome.Ok? ==> HasKey(after, KeyOf(r));
    } else if outcome.Err? {
      RoomKeeps(swept, after, now);
      LiveThroughSweep(before, after, now);
    } else {
      var room :| MadeRoom(swept, room) && |room| < MAX_RECORDS && after == room[r.id := Prepared(r, now)];
      CreateKeeps(swept, room, r, now);
      if r.id !in before {
        LiveThroughSweep(before, after, now);
      }
    }
  }

  lemma LiveThroughSweep(before: Records, after: Records, now: int)
    requires Valid(before) && KeepsLive(Swept(before, now), after, now)
    ensures KeepsLive(before, after, now)
  {
  }

  lemma CreateKeeps(swept: Records, room: Records, r: Record, now: int)
    requires Valid(swept) && MadeRoom(swept, room) && |room| < MAX_RECORDS && !HasKey(swept, KeyOf(r))
    ensures var after := room[r.id := Prepared(r, now)];
      Valid(after) && HasKey(after, KeyOf(r)) && (r.id !in swept ==> KeepsLive(swept, after, now))
  {
    RoomKeeps(swept, room, now);
    hide MadeRoom, Valid, Live;
    assert forall id | id in room :: KeyOf(room[id]) != KeyOf(r);
    InsertKeepsValid(room, Prepared(r, now));
    assert KeyOf(room[r.id := Prepared(r, now)][r.id]) == KeyOf(r);
  }

  lemma InsertKeepsValid(room: Records, r: Record)
    requires Valid(room) && |room| < MAX_RECORDS
    requires forall id | id in room :: KeyOf(room[id]) != KeyOf(r)
    ensures Valid(room[r.id := r])
  {
  }

  lemma RoomKeeps(before: Records, after: Records, now: int)
    requires Valid(before) && MadeRoom(before, after)
    ensures Valid(after) && KeepsLive(before, after, now)
    ensures forall id | id in after :: id in before && after[id] == before[id]
  {
    if |before| >= MAX_RECORDS {
      TrimKeeps(before, after, MAX_RECORDS - 1, now);
    }
  }

  lemma UpdatesKeep(before: Records, after: Records)
    requires Valid(before) && after.Keys == before.Keys
    requires forall id | id in after :: SameIdentity(after[id], before[id])
    ensures Valid(after) && forall now :: KeepsLive(before, after, now)
  {
  }

  lemma NothingSwept(now: int)
    ensures Swept(map[], now) == map[]
  {
  }

  lemma IntoEmpty(before: Records, r: Record, now: int)
    requires Swept(before, now) == map[] && Complete(r) && Prepared(r, now) == r
    ensures EnqueueStep(before, r, now, map[r.id := r], Ok(Enqueued(r, true)))
  {
    assert MadeRoom(map[], map[]);
    assert map[][r.id := r] == map[r.id := r];
  }

  lemma FailureKeeps(records: Records, id: string, failure: string, at: int)
    requires Valid(records)
    ensures Valid(MarkFailedIn(records, id, failure, at))
  {
    UpdatesKeep(records, MarkFailedIn(records, id, failure, at));
  }

  // ---------------------------------------------------------------- the store

  class DeliveryStore {
    var records: Records

    constructor ()
      ensures records == map[] && Valid(records)
    {
      records := map[];
    }

    method Cleanup(now: int)
      modifies this
      ensures Trimmed(Swept(old(records), now), records, MAX_RECORDS)
      ensures Valid(old(records)) ==>
        records == Swept(old(records), now) && Valid(records) && KeepsLive(old(records), records, now)
    {
      if Valid(records) {
        SweepKeeps(records, now);
      }
      records := SweepRecords(records, now);
      if |records| > MAX_RECORDS {
        records := TrimCompleted(records, MAX_RECORDS);
      }
    }

    method Enqueue(record: Record, now: int) returns (outcome: Result<Enqueued, StoreError>)
      requires Valid(records)
      modifies this
      ensures EnqueueStep(old(records), record, now, records, outcome)
      ensures Valid(records) && (record.id !in old(records) ==> KeepsLive(old(records), records, now))
    {
      ghost var before := records;
      hide Swept, Trimmed, Valid, KeepsLive, HasKey;
      Cleanup(now);
      ghost var swept := records;
      var existing := FindKey(records, KeyOf(record));
      if existing.Some? {
        outcome := Ok(Enqueued(existing.value, false));
      } else if record.id == "" || record.eventID == "" || record.installationID == "" {
        outcome := Err(MissingFields);
      } else {
        var prepared := Prepared(record, now);
        if |records| >= MAX_RECORDS {
          records := TrimCompleted(records, MAX_RECORDS - 1);
        }
        if |records| >= MAX_RECORDS {
          outcome := Err(QueueFull);
        } else {
          assert MadeRoom(swept, records);
          records := records[prepared.id := prepared];
          outcome := Ok(Enqueued(prepared, true));
        }
      }
      EnqueueKeeps(before, record, now, records, outcome);
    }

    method MarkSent(id: string, at: int) returns (outcome: Result<(), StoreError>)
      requires Valid(records)
      modifies this
      ensures outcome == if id in old(records) then Ok(()) else Err(NotFound)
      ensures records == MarkSentIn(old(records), id, at) && Valid(records)
    {
      if id !in records {
        return Err(NotFound);
      }
      ghost var before := records;
      var record := records[id];
      record := record.(status := Sent, attemptCount := record.attemptCount + 1, sentAt := at, lastError := "");
      record := record.(availableAt := at + RetryDelay(record.attemptCount));
      records := records[id := record];
      UpdatesKeep(before, records);
      return Ok(());
    }

    method MarkFailed(id: string, failure: string, at: int) returns (outcome: Result<(), StoreError>)
      requires Valid(records)
      modifies this
      ensures outcome == if id in old(records) then Ok(()) else Err(NotFound)
      ensures records == MarkFailedIn(old(records), id, failure, at) && Valid(records)
    {
      if id !in records {
        return Err(NotFound);
      }
      ghost var before := records;
      var record := records[id];
      record := record.(attemptCount := record.attemptCount + 1, lastError := failure);
      if record.attemptCount >= MAX_ATTEMPTS || at >= record.expiresAt {
        record := record.(status := Dead);
      } else {
        record := record.(status := Pending, availableAt := at + RetryDelay(record.attemptCount));
      }
      assert record == FailedRecord(before[id], failure, at);
      records := records[id := record];
      hide FailedRecord;
      FailureKeeps(before, id, failure, at);
      return Ok(());
    }

    method Ack(installationID: string, eventID: string, at: int) returns (outcome: Result<(), StoreError>)
      requires Valid(records)
      modifies this
      ensures outcome == if HasKey(old(records), Key(installationID, eventID)) then Ok(()) else Err(NotFound)
      ensures records == AckIn(old(records), Key(installationID, eventID), at) && Valid(records)
    {
      ghost var before := records;
      var found;
      records, found := AckKey(records, installationID, eventID, at);
      UpdatesKeep(before, records);
      outcome := if found then Ok(()) else Err(NotFound);
    }

    method AckThrough(installationID: string, eventID: string, at: int)
      returns (outcome: Result<(), StoreError>, ghost target: Option<Record>)
      requires Valid(records)
      modifies this
      ensures target.Some? <==> HasKey(old(records), Key(installationID, eventID))
      ensures target.Some? ==> KeyOf(target.value) == Key(installationID, eventID) && target.value.id in old(records)
                               && old(records)[target.value.id] == target.value
      ensures
        if target.Some? && target.value.createdAt != 0
        then outcome == Ok(()) && records == AckThroughIn(old(records), installationID, target.value.createdAt, at)
        else outcome == Err(NotFound) && records == old(records)
      ensures Valid(records)
    {
      ghost var before := records;
      var named := FindKey(records, Key(installationID, eventID));
      target := named;
      if named.None? || named.value.createdAt == 0 {
        return Err(NotFound), target;
      }
      records := AckUpTo(records, installationID, named.value.createdAt, at);
      UpdatesKeep(before, records);
      outcome := Ok(());
    }

    method DeleteForInstallation(installationID: string) returns (removed: nat)
      requires Valid(records)
      modifies this
      ensures records == WithoutInstallation(old(records), installationID) && Valid(records)
      ensures removed == |old(records)| - |records|
    {
      ghost var before := records;
      records, removed := DropInstallation(records, installationID);
      ChangesKeepValid(before, records);
    }
  }

  method AckKey(before: Records, installationID: string, eventID: string, at: int) returns (after: Records, found: bool)
    ensures after == AckIn(before, Key(installationID, eventID), at)
    ensures found == HasKey(before, Key(installationID, eventID))
  {
    after, found := before, false;
    var todo := before.Keys;
    while todo != {}
      invariant todo <= before.Keys == after.Keys
      invariant forall id | id in before ::
        after[id] == if id !in todo && KeyOf(before[id]) == Key(installationID, eventID)
                     then AckedRecord(before[id], at) else before[id]
      invariant found ==> HasKey(before, Key(installationID, eventID))
      invariant !found ==> forall id | id in before && id !in todo :: KeyOf(before[id]) != Key(installationID, eventID)
    {
      var id :| id in todo;
      todo := todo - {id};
      var record := after[id];
      if record.installationID == installationID && record.eventID == eventID {
        after := after[id := AckedRecord(record, at)];
        found := true;
      }
    }
  }

  method AckUpTo(before: Records, installationID: string, limit: int, at: int) returns (after: Records)
    ensures after == AckThroughIn(before, installationID, limit, at)
  {
    after := before;
    var todo := before.Keys;
    while todo != {}
      invariant todo <= before.Keys == after.Keys
      invariant forall id | id in before ::
        after[id] == if id !in todo && before[id].installationID == installationID && before[id].createdAt <= limit
                     then AckedRecord(before[id], at) else before[id]
    {
      var id :| id in todo;
      todo := todo - {id};
      var record := after[id];
      if record.installationID != installationID || record.createdAt > limit {
        continue;
      }
      after := after[id := AckedRecord(record, at)];
    }
  }

  method DropInstallation(before: Records, installationID: string) returns (after: Records, removed: nat)
    ensures after == WithoutInstallation(before, installationID) && removed == |before| - |after|
  {
    after, removed := before, 0;
    var todo := before.Keys;
    while todo != {}
      invariant todo <= before.Keys
      invariant forall id :: id in after <==>
        id in before && (id in todo || before[id].installationID != installationID)
      invariant forall id | id in after :: after[id] == before[id]
      invariant removed == |before| - |after|
    {
      var id :| id in todo;
      todo := todo - {id};
      if before[id].installationID == installationID {
        RemoveOne(after, id);
        after := after - {id};
        removed := removed + 1;
      }
    }
  }

  lemma RemoveOne(records: Records, id: string)
    requires id in records
    ensures |records - {id}| == |records| - 1
  {
  }

  /** The record for a device and event, if there is one. */
  method FindKey(records: Records, key: Key) returns (existing: Option<Record>)
    requires Valid(records)
    ensures existing.Some? <==> HasKey(records, key)
    ensures existing.Some? ==>
      existing.value.id in records && records[existing.value.id] == existing.value && KeyOf(existing.value) == key
  {
    existing := None;
    var todo := records.Keys;
    while todo != {}
      invariant todo <= records.Keys && existing.None?
      invariant forall id | id in records && id !in todo :: KeyOf(records[id]) != key
    {
      var id :| id in todo;
      todo := todo - {id};
      if KeyOf(records[id]) == key {
        return Some(records[id]);
      }
    }
  }

  method SweepRecords(before: Records, now: int) returns (after: Records)
    ensures after == Swept(before, now)
  {
    after := before;
    var todo := before.Keys;
    while todo != {}
      invariant todo <= before.Keys
      invariant forall id :: id in after <==> id in before && (id in todo || CleanRecord(before[id], now).Some?)
      invariant forall id | id in after ::
        after[id] == if id in todo then before[id] else CleanRecord(before[id], now).value
    {
      var id :| id in todo;
      todo := todo - {id};
      var record := after[id];
      if now >= record.expiresAt && record.status != Acked {
        record := record.(status := Dead);
        after := after[id := record];
      }
      if record.status == Acked && record.ackedAt != 0 && now - record.ackedAt > RETENTION {
        after := after - {id};
      }
      if record.status == Dead && now - record.createdAt > RETENTION {
        after := after - {id};
      }
    }
  }

  function CompletedKeys(records: Records): set<S.Key> {
    set id | id in records && Completed(records[id]) :: S.Key(records[id].createdAt, id)
  }

  method TrimCompleted(before: Records, limit: nat) returns (after: Records)
    ensures Trimmed(before, after, limit)
  {
    after := T.TrimOldest(before, CompletedKeys(before), limit);
    TrimmedIsOldestFirst(before, after, limit);
  }

  lemma TrimmedIsOldestFirst(before: Records, after: Records, limit: nat)
    requires T.TrimmedOldest(before, after, CompletedKeys(before), limit)
    ensures Trimmed(before, after, limit)
  {
    assert forall id | id in before && Completed(before[id]) ::
      S.Key(before[id].createdAt, id) in CompletedKeys(before);
    forall id | id in before && id !in after ensures Completed(before[id]) {
      assert T.Named(CompletedKeys(before), id);
    }
    forall gone, kept | gone in before && gone !in after && kept in after && Completed(after[kept])
      ensures before[gone].createdAt <= after[kept].createdAt
    {
      var a, b := S.Key(before[gone].createdAt, gone), S.Key(before[kept].createdAt, kept);
      assert a in CompletedKeys(before) && b in CompletedKeys(before);
    }
  }
}
