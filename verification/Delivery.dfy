/** Delivery records and what the store's operations make of them. Times are nanoseconds; zero is "not set". */
module Delivery {
  import Sets
  import opened Durations
  import opened Wrappers

  const DAY := 24 * HOUR
  const RETENTION := 7 * DAY
  const MAX_RECORDS := 50_000
  const MAX_ATTEMPTS := 8

  datatype Status = Pending | Sent | Acked | Dead

  datatype Record = Record(
    id: string, eventID: string, installationID: string, notification: string,
    status: Status, attemptCount: int,
    availableAt: int, expiresAt: int, createdAt: int, sentAt: int, ackedAt: int, lastError: string)

  type Records = map<string, Record>

  datatype Key = Key(installationID: string, eventID: string)

  function KeyOf(r: Record): Key {
    Key(r.installationID, r.eventID)
  }

  predicate Completed(r: Record) {
    r.status == Acked || r.status == Dead
  }

  /** A record that still has to reach its device. */
  predicate Live(r: Record, now: int) {
    !Completed(r) && now < r.expiresAt
  }

  /** What no operation changes about a record. */
  predicate SameIdentity(a: Record, b: Record) {
    a.id == b.id && KeyOf(a) == KeyOf(b) && a.notification == b.notification && a.createdAt == b.createdAt
    && a.expiresAt == b.expiresAt
  }

  /** Every reachable store: records under their own identifiers, one for each device and event, within the limit. */
  predicate Valid(records: Records) {
    && (forall id | id in records :: records[id].id == id)
    && (forall i, j | i in records && j in records && KeyOf(records[i]) == KeyOf(records[j]) :: i == j)
    && |records| <= MAX_RECORDS
  }

  // ---------------------------------------------------------------- retry delays

  function Power2(n: nat): nat {
    if n == 0 then 1 else 2 * Power2(n - 1)
  }

  /** Seconds to wait after the given attempt. */
  function RetrySeconds(attempt: int): nat {
    var counted := if attempt < 1 then 1 else attempt;
    Power2(if counted - 1 < 6 then counted - 1 else 6)
  }

  function RetryDelay(attempt: int): int {
    RetrySeconds(attempt) * SECOND
  }

  const INT4_MAX := 0x7fff_ffff

  /** The SQL form, from the count before the attempt: the power is cast to a four byte integer, which fails when it
      does not fit. */
  function SqlRetrySeconds(priorAttempts: int): Option<nat> {
    var power := Power2(if priorAttempts < 0 then 0 else priorAttempts);
    if power > INT4_MAX then None else Some(if power < 64 then power else 64)
  }

  lemma {:induction false} Power2Grows(m: nat, n: nat)
    requires m <= n
    ensures Power2(m) <= Power2(n)
    decreases n
  {
    if m < n {
      Power2Grows(m, n - 1);
    }
  }

  lemma Power2Values()
    ensures Power2(6) == 64 && Power2(30) == 0x4000_0000 && Power2(31) == 0x8000_0000
  {
    assert Power2(10) == 0x400;
    assert Power2(14) == 0x4000;
    assert Power2(20) == 0x10_0000;
    assert Power2(25) == 0x200_0000;
  }

  /** Both stores wait equally long as long as the cast fits, that is for up to thirty earlier attempts. */
  lemma BackoffsAgree(priorAttempts: nat)
    ensures SqlRetrySeconds(priorAttempts).Some? <==> priorAttempts <= 30
    ensures priorAttempts <= 30 ==> SqlRetrySeconds(priorAttempts) == Some(RetrySeconds(priorAttempts + 1))
  {
    Power2Values();
    if priorAttempts <= 30 {
      Power2Grows(priorAttempts, 30);
      if priorAttempts < 6 {
        Power2Grows(priorAttempts, 6);
      } else {
        Power2Grows(6, priorAttempts);
      }
    } else {
      Power2Grows(31, priorAttempts);
    }
  }

  // ---------------------------------------------------------------- single records

  function SentRecord(r: Record, at: int): Record {
    r.(status := Sent, attemptCount := r.attemptCount + 1, sentAt := at, lastError := "",
       availableAt := at + RetryDelay(r.attemptCount + 1))
  }

  function FailedRecord(r: Record, failure: string, at: int): Record {
    var counted := r.(attemptCount := r.attemptCount + 1, lastError := failure);
    if counted.attemptCount >= MAX_ATTEMPTS || at >= r.expiresAt then counted.(status := Dead)
    else counted.(status := Pending, availableAt := at + RetryDelay(counted.attemptCount))
  }

  function AckedRecord(r: Record, at: int): Record {
    r.(status := Acked, ackedAt := at, lastError := "")
  }

  /** What clean-up makes of a record; `None` removes it. */
  function CleanRecord(r: Record, now: int): Option<Record> {
    var aged := if now >= r.expiresAt && r.status != Acked then r.(status := Dead) else r;
    if aged.status == Acked && aged.ackedAt != 0 && now - aged.ackedAt > RETENTION then None
    else if aged.status == Dead && now - aged.createdAt > RETENTION then None
    else Some(aged)
  }

  // ---------------------------------------------------------------- the whole table

  /** Clean-up before any trimming. */
  function Swept(records: Records, now: int): Records {
    map id | id in records && CleanRecord(records[id], now).Some? :: CleanRecord(records[id], now).value
  }

  /** Capacity trim: only completed records go, oldest first, and no more than needed. */
  ghost predicate Trimmed(before: Records, after: Records, limit: nat) {
    && after.Keys <= before.Keys && (forall id | id in after :: after[id] == before[id])
    && (forall id | id in before && id !in after :: Completed(before[id]))
    && (|before| <= limit ==> after == before)
    && (|before| > limit ==> |after| >= limit)
    && (|after| > limit ==> forall id | id in after :: !Completed(after[id]))
    && (forall gone, kept | gone in before && gone !in after && kept in after && Completed(after[kept]) ::
          before[gone].createdAt <= after[kept].createdAt)
  }

  /** Removing and changing records without changing who they are for keeps the store valid. */
  lemma ChangesKeepValid(before: Records, after: Records)
    requires Valid(before) && after.Keys <= before.Keys
    requires forall id | id in after :: SameIdentity(after[id], before[id])
    ensures Valid(after)
  {
    Sets.SubsetSize(after.Keys, before.Keys);
  }

  /** Nothing that is still due was removed. */
  ghost predicate KeepsLive(before: Records, after: Records, now: int) {
    forall id | id in before && Live(before[id], now) :: id in after && SameIdentity(after[id], before[id])
  }

  lemma SweepKeeps(records: Records, now: int)
    requires Valid(records)
    ensures Valid(Swept(records, now)) && KeepsLive(records, Swept(records, now), now)
    ensures forall id | id in records && Live(records[id], now) :: Swept(records, now)[id] == records[id]
  {
    ChangesKeepValid(records, Swept(records, now));
  }

  lemma TrimKeeps(before: Records, after: Records, limit: nat, now: int)
    requires Valid(before) && Trimmed(before, after, limit)
    ensures Valid(after) && KeepsLive(before, after, now)
  {
    ChangesKeepValid(before, after);
  }
}
