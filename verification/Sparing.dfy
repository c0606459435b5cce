/** When enqueueing a record leaves the records of an event alone. */
module Sparing {
  import Sets
  import opened Wrappers
  import opened Delivery
  import opened DeliveryStore

  /** The event's records are all still there. */
  predicate Kept(before: Records, after: Records, eventID: string) {
    forall id | id in before && before[id].eventID == eventID :: id in after && KeyOf(after[id]) == KeyOf(before[id])
  }

  predicate HasOlder(records: Records, id: string)
    requires id in records
  {
    exists older | older in records :: Completed(records[older]) && records[older].createdAt < records[id].createdAt
  }

  /** A clean-up now removes none of the event's records. */
  predicate Retained(records: Records, eventID: string, now: int) {
    forall id | id in records && records[id].eventID == eventID :: id in Swept(records, now)
  }

  /** Enqueueing the record now has to make room for it. */
  predicate NeedsRoom(records: Records, r: Record, now: int) {
    !HasKey(Swept(records, now), KeyOf(r)) && Complete(r) && |Swept(records, now)| >= MAX_RECORDS
  }

  /** Every completed record of the event has an older completed one, which goes first. */
  predicate OldersFirst(swept: Records, eventID: string) {
    forall id | id in swept && swept[id].eventID == eventID && Completed(swept[id]) :: HasOlder(swept, id)
  }

  /** Enqueueing the record now removes none of the event's records: they are within retention, and if it has to make
      room an older completed record goes first. */
  predicate Spared(records: Records, eventID: string, r: Record, now: int) {
    Retained(records, eventID, now) && (NeedsRoom(records, r, now) ==> OldersFirst(Swept(records, now), eventID))
  }

  lemma TwoGone(before: Records, after: Records, a: string, b: string)
    requires after.Keys <= before.Keys && a in before && b in before && a != b && a !in after && b !in after
    ensures |after| <= |before| - 2
  {
    assert after.Keys <= before.Keys - {a, b};
    assert |before.Keys - {a, b}| == |before| - 2;
    Sets.SubsetSize(after.Keys, before.Keys - {a, b});
  }

  lemma RoomSpares(swept: Records, room: Records, eventID: string)
    requires Valid(swept) && MadeRoom(swept, room) && (|swept| >= MAX_RECORDS ==> OldersFirst(swept, eventID))
    ensures Kept(swept, room, eventID) && room.Keys <= swept.Keys && forall id | id in room :: room[id] == swept[id]
  {
    if |swept| >= MAX_RECORDS {
      forall id | id in swept && swept[id].eventID == eventID ensures id in room {
        if id !in room {
          assert HasOlder(swept, id);
          var older :| older in swept && Completed(swept[older]) && swept[older].createdAt < swept[id].createdAt;
          if older !in room {
            TwoGone(swept, room, id, older);
          }
          assert false;
        }
      }
    }
  }

  /** The event's records are there, and no record is new or of another device or event. */
  ghost predicate OwnKept(before: Records, room: Records, eventID: string) {
    Kept(before, room, eventID) && forall id | id in room :: id in before && KeyOf(room[id]) == KeyOf(before[id])
  }

  lemma SweptOwn(before: Records, eventID: string, now: int)
    requires Retained(before, eventID, now)
    ensures var swept := Swept(before, now);
      OwnKept(before, swept, eventID) && forall key: Key | key.eventID == eventID && HasKey(before, key) ::
        HasKey(swept, key)
  {
  }

  lemma RoomOwn(before: Records, swept: Records, room: Records, eventID: string)
    requires OwnKept(before, swept, eventID) && Kept(swept, room, eventID)
    requires room.Keys <= swept.Keys && forall id | id in room :: room[id] == swept[id]
    ensures OwnKept(before, room, eventID)
  {
  }

  /** What enqueueing does when it spares the event: at most its own record is new. */
  ghost predicate Grown(before: Records, eventID: string, r: Record, after: Records,
                        outcome: Result<Enqueued, StoreError>) {
    if outcome.Ok? && outcome.value.created then
      r.id in after && KeyOf(after[r.id]) == KeyOf(r) && OwnKept(before, after - {r.id}, eventID)
    else r.id !in after && OwnKept(before, after, eventID)
  }

  lemma InsertOwn(before: Records, room: Records, eventID: string, r: Record, now: int)
    requires OwnKept(before, room, eventID) && r.id !in before
    ensures Grown(before, eventID, r, room[r.id := Prepared(r, now)], Ok(Enqueued(Prepared(r, now), true)))
  {
    assert room[r.id := Prepared(r, now)] - {r.id} == room;
  }

  lemma EnqueueSpares(before: Records, eventID: string, r: Record, now: int, after: Records,
                      outcome: Result<Enqueued, StoreError>)
    requires Valid(before) && Spared(before, eventID, r, now) && r.id !in before
    requires EnqueueStep(before, r, now, after, outcome)
    ensures Grown(before, eventID, r, after, outcome)
  {
    var swept := Swept(before, now);
    SweepKeeps(before, now);
    SweptOwn(before, eventID, now);
    hide Swept, Valid, KeepsLive, HasKey, Kept, KeyOf, OldersFirst, Retained;
    if !HasKey(swept, KeyOf(r)) && Complete(r) {
      if outcome.Err? {
        RoomSpares(swept, after, eventID);
        RoomOwn(before, swept, after, eventID);
      } else {
        var room :| MadeRoom(swept, room) && |room| < MAX_RECORDS && after == room[r.id := Prepared(r, now)];
        RoomSpares(swept, room, eventID);
        RoomOwn(before, swept, room, eventID);
        InsertOwn(before, room, eventID, r, now);
      }
    }
  }

  /** What enqueueing does to the records of the record's own event. */
  ghost predicate OwnChange(before: Records, r: Record, after: Records, outcome: Result<Enqueued, StoreError>) {
    && Kept(before, after, r.eventID)
    && (forall id | id in after && id != r.id :: id in before && KeyOf(after[id]) == KeyOf(before[id]))
    && (outcome.Ok? ==> HasKey(after, KeyOf(r)))
    && (if outcome.Ok? && outcome.value.created
        then !HasKey(before, KeyOf(r)) && r.id in after && KeyOf(after[r.id]) == KeyOf(r)
        else r.id !in after)
  }

  lemma CreatedIsNew(before: Records, r: Record, now: int, after: Records, outcome: Result<Enqueued, StoreError>)
    requires Retained(before, r.eventID, now) && EnqueueStep(before, r, now, after, outcome) && outcome.Ok?
    requires outcome.value.created
    ensures !HasKey(before, KeyOf(r))
  {
    SweptOwn(before, r.eventID, now);
    hide Swept, HasKey, Kept;
  }

  lemma EnqueueOwn(before: Records, r: Record, now: int, after: Records, outcome: Result<Enqueued, StoreError>)
    requires Valid(before) && Spared(before, r.eventID, r, now) && r.id !in before
    requires EnqueueStep(before, r, now, after, outcome)
    ensures Valid(after) && OwnChange(before, r, after, outcome)
  {
    hide EnqueueStep, Valid, KeepsLive, HasKey, Swept, NeedsRoom, OldersFirst;
    EnqueueKeeps(before, r, now, after, outcome);
    EnqueueSpares(before, r.eventID, r, now, after, outcome);
    if outcome.Ok? && outcome.value.created {
      CreatedIsNew(before, r, now, after, outcome);
    }
    assert forall id | id in after && id != r.id :: id in after - {r.id};
  }

  // ---------------------------------------------------------------- and only then

  lemma {:induction false} OldestOf(records: Records, ids: set<string>) returns (id: string)
    requires ids != {} && ids <= records.Keys
    ensures id in ids && forall other | other in ids :: records[id].createdAt <= records[other].createdAt
    decreases ids
  {
    id :| id in ids;
    if ids != {id} {
      var rest := OldestOf(records, ids - {id});
      if records[rest].createdAt < records[id].createdAt {
        id := rest;
      }
    }
  }

  /** A full table may give up any completed record that has no older one. */
  lemma TrimMayTake(swept: Records, id: string)
    requires |swept| == MAX_RECORDS && id in swept && Completed(swept[id]) && !HasOlder(swept, id)
    ensures MadeRoom(swept, swept - {id}) && |swept - {id}| < MAX_RECORDS
  {
  }

  lemma CreateStep(before: Records, r: Record, now: int, room: Records)
    requires Complete(r) && !HasKey(Swept(before, now), KeyOf(r))
    requires MadeRoom(Swept(before, now), room) && |room| < MAX_RECORDS
    ensures EnqueueStep(before, r, now, room[r.id := Prepared(r, now)], Ok(Enqueued(Prepared(r, now), true)))
  {
  }

  lemma SomeRoom(swept: Records) returns (room: Records)
    requires Valid(swept)
    ensures MadeRoom(swept, room)
  {
    room := swept;
    var done := set id | id in swept && Completed(swept[id]);
    if |swept| >= MAX_RECORDS && done != {} {
      var id := OldestOf(swept, done);
      assert !HasOlder(swept, id) by {
        assert forall other | other in swept && Completed(swept[other]) :: other in done;
      }
      TrimMayTake(swept, id);
      room := swept - {id};
    } else {
      assert forall id | id in swept && Completed(swept[id]) :: id in done;
    }
  }

  /** Enqueueing always has a result. */
  lemma SomeResult(before: Records, r: Record, now: int) returns (after: Records, outcome: Result<Enqueued, StoreError>)
    requires Valid(before)
    ensures EnqueueStep(before, r, now, after, outcome)
  {
    var swept := Swept(before, now);
    SweepKeeps(before, now);
    assert forall id | id in swept :: swept[id].id == id;
    hide Swept, MadeRoom, Valid, KeepsLive, Complete;
    if HasKey(swept, KeyOf(r)) {
      var id :| id in swept && KeyOf(swept[id]) == KeyOf(r);
      after, outcome := swept, Ok(Enqueued(swept[id], false));
    } else if !Complete(r) {
      after, outcome := swept, Err(MissingFields);
    } else {
      var room := SomeRoom(swept);
      if |room| < MAX_RECORDS {
        CreateStep(before, r, now, room);
        after, outcome := room[r.id := Prepared(r, now)], Ok(Enqueued(Prepared(r, now), true));
      } else {
        after, outcome := room, Err(QueueFull);
      }
    }
  }

  lemma LostForGood(before: Records, r: Record, now: int, id: string, after: Records,
                    outcome: Result<Enqueued, StoreError>)
    requires Valid(before) && r.id !in before && id in before && id !in Swept(before, now)
    requires EnqueueStep(before, r, now, after, outcome)
    ensures id !in after
  {
  }

  lemma TakenByTrim(before: Records, eventID: string, r: Record, now: int, id: string)
    returns (after: Records, outcome: Result<Enqueued, StoreError>)
    requires Valid(before) && r.id !in before && NeedsRoom(before, r, now)
    requires var swept := Swept(before, now);
      id in swept && swept[id].eventID == eventID && Completed(swept[id]) && !HasOlder(swept, id)
    ensures EnqueueStep(before, r, now, after, outcome) && !Kept(before, after, eventID)
  {
    var swept := Swept(before, now);
    SweepKeeps(before, now);
    assert id in before && before[id].eventID == eventID && r.id !in swept;
    hide Swept, MadeRoom, Valid, KeepsLive, HasKey, EnqueueStep, HasOlder;
    FullWhenValid(swept);
    TrimMayTake(swept, id);
    CreateStep(before, r, now, swept - {id});
    after, outcome := (swept - {id})[r.id := Prepared(r, now)], Ok(Enqueued(Prepared(r, now), true));
    assert id !in after;
  }

  /** If the event is not spared, some outcome of the call loses one of its records. */
  lemma UnsparedIsLost(before: Records, eventID: string, r: Record, now: int)
    returns (after: Records, outcome: Result<Enqueued, StoreError>)
    requires Valid(before) && r.id !in before && !Spared(before, eventID, r, now)
    ensures EnqueueStep(before, r, now, after, outcome) && !Kept(before, after, eventID)
  {
    hide Valid, NeedsRoom, EnqueueStep, HasOlder, Swept;
    var swept := Swept(before, now);
    if id :| id in before && before[id].eventID == eventID && id !in swept {
      after, outcome := SomeResult(before, r, now);
      LostForGood(before, r, now, id, after, outcome);
    } else {
      var id :| id in swept && swept[id].eventID == eventID && Completed(swept[id]) && !HasOlder(swept, id);
      after, outcome := TakenByTrim(before, eventID, r, now, id);
    }
  }

  lemma FullWhenValid(records: Records)
    requires Valid(records) && |records| >= MAX_RECORDS
    ensures |records| == MAX_RECORDS
  {
  }

  lemma GrownKeeps(before: Records, eventID: string, r: Record, after: Records, outcome: Result<Enqueued, StoreError>)
    requires Grown(before, eventID, r, after, outcome)
    ensures Kept(before, after, eventID)
  {
  }

  /** Enqueueing a record keeps the records of an event, whatever it has to remove, exactly if they are spared. */
  lemma SparedExactly(before: Records, eventID: string, r: Record, now: int)
    requires Valid(before) && r.id !in before
    ensures Spared(before, eventID, r, now) <==>
      forall after, outcome | EnqueueStep(before, r, now, after, outcome) :: Kept(before, after, eventID)
  {
    hide Valid, EnqueueStep, Spared, Kept, Grown;
    if Spared(before, eventID, r, now) {
      forall after, outcome | EnqueueStep(before, r, now, after, outcome) ensures Kept(before, after, eventID) {
        EnqueueSpares(before, eventID, r, now, after, outcome);
        GrownKeeps(before, eventID, r, after, outcome);
      }
    } else {
      var after, outcome := UnsparedIsLost(before, eventID, r, now);
    }
  }
}
