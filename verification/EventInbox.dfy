/** The inbox of EventSub messages and the list of messages already handled. */
module EventInbox {
  import Sets
  import opened Wrappers
  import opened Text
  import opened Delivery
  import S = Sorting
  import T = Trimming

  const MAX_INBOX := 100_000
  const MAX_SEEN := 100_000

  datatype EntryStatus = Waiting | DeadLetter

  datatype Entry = Entry(
    envelope: string, status: EntryStatus, attemptCount: int,
    availableAt: int, expiresAt: int, receivedAt: int, lastAttemptAt: int, lastError: string)

  type Inbox = map<string, Entry>
  type Seen = map<string, int>

  datatype InboxError = MissingMessageID | InboxFull | UnknownMessage

  /** The entry of a message, if it is in the inbox, and whether the call put it there. */
  datatype Received = Received(entry: Option<Entry>, created: bool)

  // ---------------------------------------------------------------- specification

  function NewEntry(envelope: string, now: int): Entry {
    Entry(envelope, Waiting, 0, now, now + DAY, now, 0, "")
  }

  function StillSeen(seen: Seen, now: int): Seen {
    map id | id in seen && now - seen[id] <= DAY :: seen[id]
  }

  function DeadKeys(inbox: Inbox): set<S.Key> {
    set id | id in inbox && inbox[id].status == DeadLetter :: S.Key(inbox[id].receivedAt, id)
  }

  ghost predicate InboxRoom(before: Inbox, after: Inbox) {
    if |before| >= MAX_INBOX then T.TrimmedOldest(before, after, DeadKeys(before), MAX_INBOX - 1) else after == before
  }

  /** A message enters the inbox unless it was handled within a day, is there already, or finds no room. */
  ghost predicate ReceiveStep(inbox: Inbox, seen: Seen, id: string, envelope: string, now: int, inbox': Inbox,
                              seen': Seen, outcome: Result<Received, InboxError>) {
    if id == "" then inbox' == inbox && seen' == seen && outcome == Err(MissingMessageID)
    else
      && seen' == StillSeen(seen, now)
      && if id in seen' then inbox' == inbox && outcome == Ok(Received(None, false))
         else if id in inbox then inbox' == inbox && outcome == Ok(Received(Some(inbox[id]), false))
         else
           var room := inbox' - {id};
           && InboxRoom(inbox, room)
           && if |room| >= MAX_INBOX then inbox' == room && outcome == Err(InboxFull)
              else inbox' == room[id := NewEntry(envelope, now)]
                   && outcome == Ok(Received(Some(NewEntry(envelope, now)), true))
  }

  /** The list of handled messages takes one more; a full list gives up its oldest. */
  ghost predicate SeenAdded(seen: Seen, id: string, at: int, seen': Seen) {
    if |seen| < MAX_SEEN then seen' == seen[id := at]
    else exists oldest :: IsOldest(seen, oldest) && seen' == (seen - {oldest})[id := at]
  }

  predicate IsOldest(seen: Seen, oldest: string) {
    oldest in seen && forall other | other in seen :: seen[oldest] <= seen[other]
  }

  ghost predicate CompleteStep(inbox: Inbox, seen: Seen, id: string, at: int, inbox': Inbox, seen': Seen,
                               outcome: Result<(), InboxError>) {
    if id !in inbox
    then inbox' == inbox && seen' == seen && outcome == (if id in seen then Ok(()) else Err(UnknownMessage))
    else inbox' == inbox - {id} && SeenAdded(seen, id, at, seen') && outcome == Ok(())
  }

  function FailedEntry(e: Entry, failure: string, at: int): Entry {
    var counted := e.(attemptCount := e.attemptCount + 1, lastAttemptAt := at, lastError := failure);
    if counted.attemptCount >= MAX_ATTEMPTS || at >= e.expiresAt then counted.(status := DeadLetter)
    else counted.(status := Waiting, availableAt := at + RetryDelay(counted.attemptCount))
  }

  function FailedIn(inbox: Inbox, id: string, failure: string, at: int): Inbox {
    if id in inbox then inbox[id := FailedEntry(inbox[id], failure, at)] else inbox
  }

  function RetriedIn(inbox: Inbox, id: string, now: int): Inbox {
    if id in inbox then inbox[id := inbox[id].(status := Waiting, attemptCount := 0, availableAt := now,
                                               expiresAt := now + DAY, lastError := "")] else inbox
  }

  function CleanEntry(e: Entry, now: int): Option<Entry> {
    var aged :=
      if now >= e.expiresAt && e.status != DeadLetter
      then e.(status := DeadLetter, lastError := "EventSub inbox item expired before processing") else e;
    if aged.status == DeadLetter && now - aged.receivedAt > RETENTION then None else Some(aged)
  }

  function SweptInbox(inbox: Inbox, now: int): Inbox {
    map id | id in inbox && CleanEntry(inbox[id], now).Some? :: CleanEntry(inbox[id], now).value
  }

  /** An entry that may still be processed. */
  predicate Open(e: Entry, now: int) {
    e.status == Waiting && now < e.expiresAt
  }

  predicate Bounded(inbox: Inbox, seen: Seen) {
    |inbox| <= MAX_INBOX && |seen| <= MAX_SEEN
  }

  // ---------------------------------------------------------------- what the steps keep

  lemma SeenShrinks(seen: Seen, now: int)
    ensures |StillSeen(seen, now)| <= |seen| && forall id | id in StillSeen(seen, now) :: id in seen
  {
    Sets.SubsetSize(StillSeen(seen, now).Keys, seen.Keys);
  }

  lemma ReceiveKeeps(inbox: Inbox, seen: Seen, id: string, envelope: string, now: int, inbox': Inbox, seen': Seen,
                     outcome: Result<Received, InboxError>)
    requires Bounded(inbox, seen) && ReceiveStep(inbox, seen, id, envelope, now, inbox', seen', outcome)
    ensures Bounded(inbox', seen')
    ensures forall other | other in inbox && other !in inbox' :: inbox[other].status == DeadLetter
    ensures forall other | other in inbox && other in inbox' :: inbox'[other] == inbox[other]
    ensures forall other | other in inbox' && other !in inbox ::
      other == id && outcome == Ok(Received(Some(inbox'[id]), true))
    ensures forall other | other in seen' :: other in seen
    ensures outcome.Ok? ==> id in inbox' || (id in seen' && !outcome.value.created)
  {
    hide InboxRoom, StillSeen, NewEntry;
    SeenShrinks(seen, now);
    if id != "" && id !in seen' && id !in inbox {
      InsertKeeps(inbox, inbox', id, NewEntry(envelope, now));
    }
  }

  lemma InsertKeeps(inbox: Inbox, inbox': Inbox, id: string, entry: Entry)
    requires |inbox| <= MAX_INBOX && id !in inbox && InboxRoom(inbox, inbox' - {id})
    requires var room := inbox' - {id}; inbox' == if |room| >= MAX_INBOX then room else room[id := entry]
    ensures |inbox'| <= MAX_INBOX
    ensures forall other | other in inbox && other !in inbox' :: inbox[other].status == DeadLetter
    ensures forall other | other in inbox && other in inbox' :: inbox'[other] == inbox[other]
    ensures forall other | other in inbox' && other !in inbox :: other == id
  {
    var room := inbox' - {id};
    hide InboxRoom;
    RoomLosesDead(inbox, room);
    InsertBounded(inbox, room, id, entry);
  }

  lemma InsertBounded(inbox: Inbox, room: Inbox, id: string, entry: Entry)
    requires room.Keys <= inbox.Keys
    ensures |room| <= |inbox| && |room[id := entry]| <= |room| + 1
  {
    Sets.SubsetSize(room.Keys, inbox.Keys);
    assert room[id := entry].Keys == room.Keys + {id};
  }

  lemma RoomLosesDead(before: Inbox, after: Inbox)
    requires InboxRoom(before, after)
    ensures after.Keys <= before.Keys && (forall id | id in after :: after[id] == before[id])
    ensures forall id | id in before && id !in after :: before[id].status == DeadLetter
  {
  }

  lemma SeenAddedKeeps(seen: Seen, id: string, at: int, seen': Seen)
    requires |seen| <= MAX_SEEN && SeenAdded(seen, id, at, seen')
    ensures |seen'| <= MAX_SEEN && id in seen' && forall other | other in seen' :: other == id || other in seen
  {
  }

  lemma SweepKeepsOpen(inbox: Inbox, now: int)
    ensures forall id | id in inbox && Open(inbox[id], now) ::
      id in SweptInbox(inbox, now) && SweptInbox(inbox, now)[id] == inbox[id]
    ensures |SweptInbox(inbox, now)| <= |inbox|
  {
    Sets.SubsetSize(SweptInbox(inbox, now).Keys, inbox.Keys);
  }

  // ---------------------------------------------------------------- attempts

  datatype Failure = Failure(error: string, at: int)

  /** An entry after processing has failed several times. */
  function AfterFailures(e: Entry, failures: seq<Failure>): Entry {
    if failures == [] then e
    else
      var n := |failures| - 1;
      FailedEntry(AfterFailures(e, failures[..n]), failures[n].error, failures[n].at)
  }

  /** A message that was received or retried and does not expire dies with its eighth failure and not before,
      and after each earlier one it is due again when the delay for that attempt is over. */
  lemma {:induction false} DiesAtEighth(e: Entry, failures: seq<Failure>)
    requires e.status == Waiting && e.attemptCount == 0
    requires forall i | 0 <= i < |failures| :: failures[i].at < e.expiresAt
    ensures var after := AfterFailures(e, failures);
      && after.attemptCount == |failures| && after.expiresAt == e.expiresAt && after.receivedAt == e.receivedAt
      && (after.status == DeadLetter <==> |failures| >= MAX_ATTEMPTS)
      && (0 < |failures| < MAX_ATTEMPTS ==> after.availableAt == failures[|failures| - 1].at + RetryDelay(|failures|))
  {
    hide RetryDelay;
    if failures != [] {
      DiesAtEighth(e, failures[..|failures| - 1]);
    }
  }

  /** Whatever became of a message, retrying it makes it due at once, for another day and another eight attempts. */
  lemma RetryStartsOver(inbox: Inbox, id: string, now: int, failures: seq<Failure>)
    requires id in inbox && forall i | 0 <= i < |failures| :: failures[i].at < now + DAY
    ensures var e := RetriedIn(inbox, id, now)[id];
      && Open(e, now) && e.availableAt == now && (forall later | now <= later < now + DAY :: Open(e, later))
      && (AfterFailures(e, failures).status == DeadLetter <==> |failures| >= MAX_ATTEMPTS)
  {
    DiesAtEighth(RetriedIn(inbox, id, now)[id], failures);
  }

  // ---------------------------------------------------------------- the store

  class EventInbox {
    var inbox: Inbox
    var seen: Seen

    constructor ()
      ensures inbox == map[] && seen == map[]
    {
      inbox, seen := map[], map[];
    }

    method EnqueueEventSub(messageID: string, envelope: string, now: int)
      returns (outcome: Result<Received, InboxError>)
      modifies this
      ensures ReceiveStep(old(inbox), old(seen), TrimSpace(messageID), envelope, now, inbox, seen, outcome)
    {
      hide TrimSpace;
      inbox, seen, outcome := Receive(inbox, seen, TrimSpace(messageID), envelope, now);
    }

    method CompleteEventSub(id: string, at: int) returns (outcome: Result<(), InboxError>)
      modifies this
      ensures CompleteStep(old(inbox), old(seen), id, at, inbox, seen, outcome)
    {
      if id !in inbox {
        return if id in seen then Ok(()) else Err(UnknownMessage);
      }
      inbox := inbox - {id};
      seen := AddSeen(seen, id, at);
      outcome := Ok(());
    }

    method MarkEventSubFailed(id: string, failure: string, at: int) returns (outcome: Result<(), InboxError>)
      modifies this
      ensures inbox == FailedIn(old(inbox), id, failure, at) && seen == old(seen)
      ensures outcome == if id in old(inbox) then Ok(()) else Err(UnknownMessage)
    {
      if id !in inbox {
        return Err(UnknownMessage);
      }
      var entry := inbox[id];
      entry := entry.(attemptCount := entry.attemptCount + 1, lastAttemptAt := at, lastError := failure);
      if entry.attemptCount >= MAX_ATTEMPTS || at >= entry.expiresAt {
        entry := entry.(status := DeadLetter);
      } else {
        entry := entry.(status := Waiting, availableAt := at + RetryDelay(entry.attemptCount));
      }
      inbox := inbox[id := entry];
      outcome := Ok(());
    }

    method RetryEventSub(id: string, now: int) returns (outcome: Result<(), InboxError>)
      modifies this
      ensures inbox == RetriedIn(old(inbox), id, now) && seen == old(seen)
      ensures outcome == if id in old(inbox) then Ok(()) else Err(UnknownMessage)
    {
      if id !in inbox {
        return Err(UnknownMessage);
      }
      inbox := inbox[id := inbox[id].(status := Waiting, attemptCount := 0, availableAt := now, expiresAt := now + DAY,
                                      lastError := "")];
      outcome := Ok(());
    }

    method Cleanup(now: int)
      modifies this
      ensures T.TrimmedOldest(SweptInbox(old(inbox), now), inbox, DeadKeys(SweptInbox(old(inbox), now)), MAX_INBOX)
      ensures Bounded(old(inbox), old(seen)) ==> inbox == SweptInbox(old(inbox), now)
      ensures seen == StillSeen(old(seen), now)
    {
      SweepKeepsOpen(inbox, now);
      inbox := SweepEntries(inbox, now);
      seen := SweepSeen(seen, now);
      if |inbox| > MAX_INBOX {
        inbox := T.TrimOldest(inbox, DeadKeys(inbox), MAX_INBOX);
      }
    }
  }

  lemma WithoutNew(room: Inbox, id: string, entry: Entry)
    requires id !in room
    ensures room - {id} == room && room[id := entry] - {id} == room
  {
  }

  method Receive(before: Inbox, handled: Seen, id: string, envelope: string, now: int)
    returns (inbox: Inbox, seen: Seen, outcome: Result<Received, InboxError>)
    ensures ReceiveStep(before, handled, id, envelope, now, inbox, seen, outcome)
  {
    inbox, seen := before, handled;
    if id == "" {
      return inbox, seen, Err(MissingMessageID);
    }
    seen := SweepSeen(handled, now);
    hide StillSeen, InboxRoom;
    if id in seen {
      return inbox, seen, Ok(Received(None, false));
    }
    if id in inbox {
      return inbox, seen, Ok(Received(Some(inbox[id]), false));
    }
    inbox := MakeRoom(before);
    RoomLosesDead(before, inbox);
    WithoutNew(inbox, id, NewEntry(envelope, now));
    if |inbox| >= MAX_INBOX {
      return inbox, seen, Err(InboxFull);
    }
    var entry := NewEntry(envelope, now);
    inbox := inbox[id := entry];
    outcome := Ok(Received(Some(entry), true));
  }

  method MakeRoom(before: Inbox) returns (after: Inbox)
    ensures InboxRoom(before, after)
  {
    after := before;
    if |before| >= MAX_INBOX {
      after := T.TrimOldest(before, DeadKeys(before), MAX_INBOX - 1);
    }
  }

  method SweepSeen(before: Seen, now: int) returns (after: Seen)
    ensures after == StillSeen(before, now)
  {
    after := before;
    var todo := before.Keys;
    while todo != {}
      invariant todo <= before.Keys
      invariant forall id :: id in after <==> id in before && (id in todo || now - before[id] <= DAY)
      invariant forall id | id in after :: after[id] == before[id]
    {
      var id :| id in todo;
      todo := todo - {id};
      if now - after[id] > DAY {
        after := after - {id};
      }
    }
  }

  method SweepEntries(before: Inbox, now: int) returns (after: Inbox)
    ensures after == SweptInbox(before, now)
  {
    after := before;
    var todo := before.Keys;
    while todo != {}
      invariant todo <= before.Keys
      invariant forall id :: id in after <==> id in before && (id in todo || CleanEntry(before[id], now).Some?)
      invariant forall id | id in after ::
        after[id] == if id in todo then before[id] else CleanEntry(before[id], now).value
    {
      var id :| id in todo;
      todo := todo - {id};
      var entry := after[id];
      if now >= entry.expiresAt && entry.status != DeadLetter {
        entry := entry.(status := DeadLetter, lastError := "EventSub inbox item expired before processing");
        after := after[id := entry];
      }
      if entry.status == DeadLetter && now - entry.receivedAt > RETENTION {
        after := after - {id};
      }
    }
  }

  method AddSeen(before: Seen, id: string, at: int) returns (after: Seen)
    ensures SeenAdded(before, id, at, after)
  {
    after := before;
    if |before| >= MAX_SEEN {
      var oldest :| oldest in before;
      var todo := before.Keys - {oldest};
      while todo != {}
        invariant todo <= before.Keys && oldest in before
        invariant forall other | other in before && other !in todo :: before[oldest] <= before[other]
      {
        var key :| key in todo;
        todo := todo - {key};
        if before[key] < before[oldest] {
          oldest := key;
        }
      }
      after := after - {oldest};
    }
    after := after[id := at];
  }

  /** Clean-up makes a dead letter of what has expired, and removes a dead letter exactly when it was received more than
      seven days ago; what waits and has not expired stays as it is. */
  lemma DeadLettersAreKept(inbox: Inbox, id: string, now: int)
    requires id in inbox
    ensures var e, after := inbox[id], SweptInbox(inbox, now);
      && (Open(e, now) ==> id in after && after[id] == e)
      && (!Open(e, now) ==>
            && (id in after <==> now <= e.receivedAt + 7 * DAY)
            && (id in after ==> after[id].status == DeadLetter && after[id].attemptCount == e.attemptCount
                                && after[id].envelope == e.envelope && after[id].receivedAt == e.receivedAt))
  {
  }
}
