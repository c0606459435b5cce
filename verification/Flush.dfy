/** Sending what is due for one device: oldest first, stopping at the first failure. */
module Flush {
  import opened Wrappers
  import opened Delivery
  import opened DeliveryStore
  import S = Sorting

  const FLUSH_LIMIT := 100

  // ---------------------------------------------------------------- what is due

  predicate Due(r: Record, installationID: string, now: int) {
    r.installationID == installationID && !Completed(r) && r.availableAt <= now < r.expiresAt
  }

  function DueKeys(records: Records, installationID: string, now: int): set<S.Key> {
    set id | id in records && Due(records[id], installationID, now) :: S.Key(records[id].createdAt, id)
  }

  function Lookup(records: Records, keys: seq<S.Key>): (batch: seq<Record>)
    requires forall key | key in keys :: key.name in records
    ensures |batch| == |keys| && forall i | 0 <= i < |keys| ::
      keys[i].name in records && batch[i] == records[keys[i].name]
  {
    if keys == [] then [] else assert keys[0] in keys; [records[keys[0].name]] + Lookup(records, keys[1..])
  }

  /** `PendingForInstallation`: the due records by creation time and identifier, at most `limit` of them. */
  function Pending(records: Records, installationID: string, limit: int, now: int): seq<Record> {
    var all := Lookup(records, S.Sorted(DueKeys(records, installationID, now)));
    if |all| > Bound(limit) then all[..Bound(limit)] else all
  }

  /** A batch taken from the store: distinct records, as they are stored. */
  predicate Snapshot(batch: seq<Record>, records: Records) {
    && (forall i | 0 <= i < |batch| :: batch[i].id in records && records[batch[i].id] == batch[i])
    && (forall i, j | 0 <= i < j < |batch| :: batch[i].id != batch[j].id)
  }

  predicate Before(a: Record, b: Record) {
    S.KeyLeq(S.Key(a.createdAt, a.id), S.Key(b.createdAt, b.id))
  }

  function Bound(limit: int): nat {
    if limit <= 0 then 100 else limit
  }

  /** Sorted keys of records, in the form the proofs use. */
  ghost predicate KeysOfDue(keys: seq<S.Key>, records: Records, installationID: string, now: int) {
    && (forall i | 0 <= i < |keys| ::
          keys[i].name in records && Due(records[keys[i].name], installationID, now)
          && keys[i].rank == records[keys[i].name].createdAt)
    && (forall id | id in records && Due(records[id], installationID, now) :: S.Key(records[id].createdAt, id) in keys)
    && S.Ascending(keys)
  }

  lemma SortedDue(records: Records, installationID: string, now: int)
    ensures KeysOfDue(S.Sorted(DueKeys(records, installationID, now)), records, installationID, now)
  {
    var due := DueKeys(records, installationID, now);
    var keys := S.Sorted(due);
    forall i | 0 <= i < |keys| ensures keys[i] in due {
      assert keys[i] in keys;
    }
    forall id | id in records
                && Due(records[id], installationID, now) ensures S.Key(records[id].createdAt, id) in keys {
      assert S.Key(records[id].createdAt, id) in due;
    }
  }

  lemma PendingByKeys(records: Records, installationID: string, limit: int, now: int) returns (keys: seq<S.Key>)
    ensures KeysOfDue(keys, records, installationID, now)
    ensures var batch := Pending(records, installationID, limit, now);
      && |batch| == (if |keys| > Bound(limit) then Bound(limit) else |keys|)
      && (forall i | 0 <= i < |batch| :: keys[i].name in records && batch[i] == records[keys[i].name])
  {
    SortedDue(records, installationID, now);
    keys := S.Sorted(DueKeys(records, installationID, now));
    hide DueKeys, S.Sorted, KeysOfDue;
  }

  /** The batch holds due records in order, oldest first. */
  lemma PendingIsOrdered(records: Records, installationID: string, limit: int, now: int)
    requires Valid(records)
    ensures var batch := Pending(records, installationID, limit, now);
      && Snapshot(batch, records) && |batch| <= Bound(limit)
      && (forall i | 0 <= i < |batch| :: Due(batch[i], installationID, now))
      && (forall i, j | 0 <= i < j < |batch| :: Before(batch[i], batch[j]))
  {
    var keys := PendingByKeys(records, installationID, limit, now);
    hide Pending, Due, S.KeyLeq;
    var batch := Pending(records, installationID, limit, now);
    assert forall i | 0 <= i < |batch| :: keys[i] == S.Key(batch[i].createdAt, batch[i].id);
  }

  /** A due record is left out only when the batch is full, and then everything in the batch comes before it. */
  lemma PendingLeavesOutLast(records: Records, installationID: string, limit: int, now: int, id: string)
    requires Valid(records) && id in records && Due(records[id], installationID, now)
    requires records[id] !in Pending(records, installationID, limit, now)
    ensures var batch := Pending(records, installationID, limit, now);
      |batch| == Bound(limit) && forall i | 0 <= i < |batch| :: Before(batch[i], records[id])
  {
    var keys := PendingByKeys(records, installationID, limit, now);
    hide Pending, Due, S.KeyLeq;
    var batch := Pending(records, installationID, limit, now);
    var j :| 0 <= j < |keys| && keys[j] == S.Key(records[id].createdAt, id);
    assert j >= |batch|;
    assert forall i | 0 <= i < |batch| :: keys[i] == S.Key(batch[i].createdAt, batch[i].id);
  }

  // ---------------------------------------------------------------- sending

  datatype SendOutcome = Delivered | NoConnection | SendFailed(error: string)

  /** What one send makes of its record. Only the socket can find no connection, which costs no attempt;
      only the other transports acknowledge at once. */
  function SettledRecord(r: Record, socket: bool, outcome: SendOutcome, at: int): Record {
    match outcome
    case Delivered => if socket then SentRecord(r, at) else AckedRecord(SentRecord(r, at), at)
    case NoConnection => if socket then r else FailedRecord(r, "no connection", at)
    case SendFailed(error) => FailedRecord(r, error, at)
  }

  function Settle(records: Records, r: Record, socket: bool, outcome: SendOutcome, at: int): Records {
    match outcome
    case Delivered =>
      var sent := MarkSentIn(records, r.id, at);
      if socket then sent else AckIn(sent, KeyOf(r), at)
    case NoConnection => if socket then records else MarkFailedIn(records, r.id, "no connection", at)
    case SendFailed(error) => MarkFailedIn(records, r.id, error, at)
  }

  /** A batch is worked off until a send does not succeed. */
  function Flushed(records: Records, batch: seq<Record>, socket: bool, outcomes: string -> SendOutcome,
                   at: string -> int): Records
    decreases |batch|
  {
    if batch == [] then records
    else
      var r := batch[0];
      var next := Settle(records, r, socket, outcomes(r.id), at(r.id));
      if outcomes(r.id).Delivered? then Flushed(next, batch[1..], socket, outcomes, at) else next
  }

  /** How many sends succeed before one does not. */
  function Successes(batch: seq<Record>, outcomes: string -> SendOutcome): (k: nat)
    ensures k <= |batch|
    ensures forall i | 0 <= i < k :: outcomes(batch[i].id).Delivered?
    ensures k < |batch| ==> !outcomes(batch[k].id).Delivered?
  {
    if batch == [] || !outcomes(batch[0].id).Delivered? then 0 else 1 + Successes(batch[1..], outcomes)
  }

  lemma SettleOne(records: Records, r: Record, socket: bool, outcome: SendOutcome, at: int)
    requires Valid(records) && r.id in records && records[r.id] == r
    ensures Settle(records, r, socket, outcome, at) == records[r.id := SettledRecord(r, socket, outcome, at)]
    ensures Valid(Settle(records, r, socket, outcome, at))
  {
    SettleIs(records, r, socket, outcome, at);
    SettledIdentity(r, socket, outcome, at);
    hide Settle, SettledRecord, Valid, SameIdentity;
    UpdatesKeep(records, records[r.id := SettledRecord(r, socket, outcome, at)]) by {
      assert forall id | id in records :: SameIdentity(records[id], records[id]) by { SelfIdentity(records); }
    }
  }

  lemma SelfIdentity(records: Records)
    ensures forall id | id in records :: SameIdentity(records[id], records[id])
  {
  }

  lemma SettledIdentity(r: Record, socket: bool, outcome: SendOutcome, at: int)
    ensures SameIdentity(SettledRecord(r, socket, outcome, at), r)
  {
  }

  lemma SettleIs(records: Records, r: Record, socket: bool, outcome: SendOutcome, at: int)
    requires Valid(records) && r.id in records && records[r.id] == r
    ensures Settle(records, r, socket, outcome, at) == records[r.id := SettledRecord(r, socket, outcome, at)]
  {
  }

  predicate Touches(batch: seq<Record>, k: nat, id: string) {
    exists i | 0 <= i < |batch| && i <= k :: batch[i].id == id
  }

  /** The first `k` records of the batch and the one after them are settled, all others as before. */
  ghost predicate SettledUpTo(before: Records, after: Records, batch: seq<Record>, k: nat, socket: bool,
                              outcomes: string -> SendOutcome, at: string -> int) {
    && after.Keys == before.Keys
    && (forall i | 0 <= i < |batch| && i <= k ::
          batch[i].id in after && after[batch[i].id] == SettledRecord(batch[i], socket, outcomes(batch[i].id),
                                                                      at(batch[i].id)))
    && (forall id | id in before && !Touches(batch, k, id) :: after[id] == before[id])
  }

  lemma SnapshotRest(records: Records, batch: seq<Record>, record: Record)
    requires batch != [] && Snapshot(batch, records)
    ensures Snapshot(batch[1..], records[batch[0].id := record])
  {
    assert forall i | 0 <= i < |batch[1..]| :: batch[1..][i] == batch[i + 1];
  }

  /** Exactly the sends up to the first failure count: successes are marked, at most one failure is charged,
      and every other record stays as it was. */
  lemma {:induction false} FlushSettlesPrefix(records: Records, batch: seq<Record>, socket: bool,
      outcomes: string -> SendOutcome, at: string -> int)
    requires Valid(records) && Snapshot(batch, records)
    ensures Valid(Flushed(records, batch, socket, outcomes, at))
    ensures SettledUpTo(records, Flushed(records, batch, socket, outcomes, at), batch, Successes(batch, outcomes),
                        socket, outcomes, at)
    decreases |batch|
  {
    hide SettledRecord, Settle, Valid;
    if batch != [] {
      var r := batch[0];
      SettleOne(records, r, socket, outcomes(r.id), at(r.id));
      if outcomes(r.id).Delivered? {
        var next, rest := Settle(records, r, socket, outcomes(r.id), at(r.id)), batch[1..];
        SnapshotRest(records, batch, next[r.id]);
        hide Snapshot, SettledUpTo;
        FlushSettlesPrefix(next, rest, socket, outcomes, at);
        SettledOneMore(records, next, Flushed(next, rest, socket, outcomes, at), batch, Successes(rest, outcomes),
                       socket, outcomes, at);
      }
    }
  }

  lemma SettledOneMore(records: Records, next: Records, after: Records, batch: seq<Record>, k: nat, socket: bool,
                       outcomes: string -> SendOutcome, at: string -> int)
    requires batch != [] && Snapshot(batch, records)
    requires next == records[batch[0].id := SettledRecord(batch[0], socket, outcomes(batch[0].id), at(batch[0].id))]
    requires SettledUpTo(next, after, batch[1..], k, socket, outcomes, at)
    ensures SettledUpTo(records, after, batch, k + 1, socket, outcomes, at)
  {
    hide SettledRecord;
    var rest := batch[1..];
    forall id ensures Touches(batch, k + 1, id) <==> id == batch[0].id || Touches(rest, k, id) {
      if Touches(rest, k, id) {
        var i :| 0 <= i < |rest| && i <= k && rest[i].id == id;
        assert batch[i + 1].id == id;
      }
      if Touches(batch, k + 1, id) && id != batch[0].id {
        var i :| 0 <= i < |batch| && i <= k + 1 && batch[i].id == id;
        assert rest[i - 1].id == id;
      }
    }
    assert !Touches(rest, k, batch[0].id);
    forall i | 0 <= i < |batch| && i <= k + 1
      ensures batch[i].id in after
      ensures after[batch[i].id] == SettledRecord(batch[i], socket, outcomes(batch[i].id), at(batch[i].id))
    {
      if i > 0 {
        assert rest[i - 1] == batch[i];
      }
    }
  }

  // ---------------------------------------------------------------- the method

  /** `provider` says whether the device is on the socket; without a registration nothing happens. */
  method FlushPending(store: DeliveryStore, installationID: string, provider: Option<bool>,
                      outcomes: string -> SendOutcome, at: string -> int, now: int)
    requires Valid(store.records)
    modifies store
    ensures Valid(store.records)
    ensures store.records ==
      if provider.None? then old(store.records)
      else Flushed(old(store.records), Pending(old(store.records), installationID, FLUSH_LIMIT, now), provider.value,
                   outcomes, at)
  {
    if provider.None? {
      return;
    }
    hide Pending, MarkSentIn, MarkFailedIn, AckIn, Valid;
    ghost var before := store.records;
    var batch := Pending(store.records, installationID, FLUSH_LIMIT, now);
    for i := 0 to |batch|
      invariant Valid(store.records)
      invariant Flushed(before, batch, provider.value, outcomes,
                        at) == Flushed(store.records, batch[i..], provider.value, outcomes, at)
    {
      var r := batch[i];
      assert batch[i..][1..] == batch[i + 1..] && batch[i..][0] == r;
      var outcome := outcomes(r.id);
      if provider.value {
        if !outcome.Delivered? {
          if outcome.SendFailed? {
            var _ := store.MarkFailed(r.id, outcome.error, at(r.id));
          }
          return;
        }
        var _ := store.MarkSent(r.id, at(r.id));
        continue;
      }
      if !outcome.Delivered? {
        var _ := store.MarkFailed(r.id, if outcome.SendFailed? then outcome.error else "no connection", at(r.id));
        return;
      }
      var _ := store.MarkSent(r.id, at(r.id));
      var _ := store.Ack(r.installationID, r.eventID, at(r.id));
    }
  }
}
