/** Messages that were handled are turned away for a day, over whole runs. */
module Deduplication {
  import Sets
  import opened Wrappers
  import opened EventInbox
  import opened EventScheduling
  import D = Delivery

  // ---------------------------------------------------------------- one delivery of a message

  /** A message that was handled within the last day is turned away and leaves the inbox alone. */
  lemma TurnedAway(inbox: Inbox, seen: Seen, id: string, envelope: string, now: int, inbox': Inbox, seen': Seen,
                   outcome: Result<Received, InboxError>)
    requires ReceiveStep(inbox, seen, id, envelope, now, inbox', seen', outcome)
    requires id != "" && id in seen && now <= seen[id] + D.DAY
    ensures outcome == Ok(Received(None, false)) && inbox' == inbox && id in seen' && seen'[id] == seen[id]
  {
  }

  /** Any other message that is not waiting already is taken in, if there is room. */
  lemma TakenIn(inbox: Inbox, seen: Seen, id: string, envelope: string, now: int, inbox': Inbox, seen': Seen,
                outcome: Result<Received, InboxError>)
    requires ReceiveStep(inbox, seen, id, envelope, now, inbox', seen', outcome)
    requires id != "" && id !in inbox && |inbox| < MAX_INBOX && (id in seen ==> now > seen[id] + D.DAY)
    ensures outcome.Ok? && outcome.value.created && outcome.value.entry.Some?
    ensures inbox' == inbox[id := outcome.value.entry.value]
    ensures Open(inbox'[id], now) && inbox'[id].envelope == envelope && inbox'[id].availableAt <= now
    ensures forall later | now <= later < now + D.DAY :: Open(inbox'[id], later)
  {
    assert inbox' - {id} == inbox;
  }

  /** A message that is waiting already is told as it waits, and nothing changes. */
  lemma WaitingIsTold(inbox: Inbox, seen: Seen, id: string, envelope: string, now: int, inbox': Inbox, seen': Seen,
                      outcome: Result<Received, InboxError>)
    requires ReceiveStep(inbox, seen, id, envelope, now, inbox', seen', outcome)
    requires id != "" && id in inbox && (id in seen ==> now > seen[id] + D.DAY)
    ensures outcome == Ok(Received(Some(inbox[id]), false)) && inbox' == inbox
  {
  }

  /** Completion succeeds exactly for a message that waits or was handled. It then counts as handled, and completing it
      again succeeds and changes nothing. */
  lemma CompletedAgain(inbox: Inbox, seen: Seen, id: string, at: int, inbox': Inbox, seen': Seen,
                       outcome: Result<(), InboxError>, later: int, inbox'': Inbox, seen'': Seen,
                       again: Result<(), InboxError>)
    requires CompleteStep(inbox, seen, id, at, inbox', seen', outcome)
    requires CompleteStep(inbox', seen', id, later, inbox'', seen'', again)
    ensures outcome.Ok? <==> id in inbox || id in seen
    ensures outcome.Err? ==> inbox' == inbox && seen' == seen
    ensures outcome.Ok? ==> id !in inbox' && id in seen' && inbox' == inbox - {id}
    ensures outcome.Ok? ==> again == Ok(()) && inbox'' == inbox' && seen'' == seen'
  {
    hide SeenAdded;
    if id in inbox {
      AddedIsThere(seen, id, at, seen');
    }
  }

  // ---------------------------------------------------------------- over runs

  /** The step notes the message as handled: a worker has completed it, or it was a revocation. */
  predicate Notes(w: World, action: Action, id: string) {
    match action
    case Conclude(worker, stored) => stored && worker in w.finishing && w.finishing[worker] == Verdict(id, None)
                                     && id in w.inbox
    case NoteRevocation(other) => other == id && !(id in w.seen && w.now <= w.seen[id] + D.DAY)
    case _ => false
  }

  /** The list of handled messages is full, and gives up this one, an oldest, for another. */
  predicate GivesUp(w: World, action: Action, w': World, id: string) {
    && (action.Conclude? || action.NoteRevocation?)
    && |w.seen| >= MAX_SEEN && NoneOlder(w.seen, id) && id !in w'.seen
  }

  predicate NoneOlder(seen: Seen, id: string) {
    id in seen && forall other | other in seen :: seen[id] <= seen[other]
  }

  lemma NotedNow(w: World, action: Action, w': World, id: string)
    requires Step(w, action, w') && Notes(w, action, id)
    ensures id in w'.seen && w'.seen[id] == w.now && w'.now == w.now
  {
    hide SeenAdded, ReceiveStep, SweptInbox, FailedIn, RetriedIn, Bury;
    if action.Conclude? {
      AddedIsThere(w.seen, id, w.now, w'.seen);
    } else {
      AddedIsThere(StillSeen(w.seen, w.now), id, w.now, w'.seen);
    }
  }

  lemma AddedIsThere(seen: Seen, id: string, at: int, seen': Seen)
    requires SeenAdded(seen, id, at, seen')
    ensures id in seen' && seen'[id] == at
  {
  }

  lemma FullIsWhole(seen: Seen, now: int)
    requires |seen| <= |StillSeen(seen, now)|
    ensures StillSeen(seen, now) == seen
  {
    if id :| id in seen && id !in StillSeen(seen, now) {
      Sets.SubsetSize(StillSeen(seen, now).Keys, seen.Keys - {id});
    }
  }

  lemma AddedKeeps(seen: Seen, other: string, at: int, seen': Seen, id: string)
    requires SeenAdded(seen, other, at, seen') && other != id
    ensures id in seen' ==> id in seen && seen'[id] == seen[id]
    ensures id in seen && id !in seen' ==> |seen| >= MAX_SEEN && NoneOlder(seen, id)
  {
  }

  lemma NotingKeeps(w: World, other: string, w': World, id: string)
    requires Bounded(w.inbox, w.seen) && Step(w, NoteRevocation(other), w') && !Notes(w, NoteRevocation(other), id)
    ensures id in w'.seen ==> id in w.seen && w'.seen[id] == w.seen[id]
    ensures id in w.seen && w.now <= w.seen[id] + D.DAY ==>
      (id in w'.seen <==> !GivesUp(w, NoteRevocation(other), w', id))
  {
    var still := StillSeen(w.seen, w.now);
    hide SeenAdded;
    if other !in still {
      assert other != id;
      AddedKeeps(still, other, w.now, w'.seen, id);
      if |still| >= MAX_SEEN {
        FullIsWhole(w.seen, w.now);
      }
    }
  }

  lemma ConcludingKeeps(w: World, worker: nat, stored: bool, w': World, id: string)
    requires Step(w, Conclude(worker, stored), w') && !Notes(w, Conclude(worker, stored), id)
    ensures id in w'.seen ==> id in w.seen && w'.seen[id] == w.seen[id]
    ensures id in w.seen ==> (id in w'.seen <==> !GivesUp(w, Conclude(worker, stored), w', id))
  {
    hide SeenAdded;
    var v := w.finishing[worker];
    if stored && v.failure.None? && v.id in w.inbox {
      AddedKeeps(w.seen, v.id, w.now, w'.seen, id);
    }
  }

  /** A step that does not note the message itself keeps its entry for a day, exactly unless a full list gives it up. */
  lemma StepRemembers(w: World, action: Action, w': World, id: string)
    requires Bounded(w.inbox, w.seen) && Step(w, action, w') && !Notes(w, action, id)
    ensures id in w'.seen ==> id in w.seen && w'.seen[id] == w.seen[id]
    ensures id in w.seen && w.now <= w.seen[id] + D.DAY ==> (id in w'.seen <==> !GivesUp(w, action, w', id))
  {
    hide InboxRoom, SeenAdded, ConcludeStep;
    match action {
      case Conclude(worker, stored) => ConcludingKeeps(w, worker, stored, w', id);
      case NoteRevocation(other) => NotingKeeps(w, other, w', id);
      case _ =>
    }
  }

  /** No full list has given up the message between two states. */
  predicate Remembered(worlds: seq<World>, actions: seq<Action>, n: nat, m: nat, id: string)
    requires n <= m <= |actions| < |worlds|
  {
    forall k | n <= k < m :: !GivesUp(worlds[k], actions[k], worlds[k + 1], id)
  }

  predicate NotNoted(worlds: seq<World>, actions: seq<Action>, n: nat, m: nat, id: string)
    requires n <= m <= |actions| < |worlds|
  {
    forall k | n <= k < m :: !Notes(worlds[k], actions[k], id)
  }

  lemma StepMovesOn(w: World, action: Action, w': World)
    requires Step(w, action, w')
    ensures w.now <= w'.now
  {
    hide ReceiveStep, SeenAdded, SweptInbox, FailedIn, RetriedIn, Bury, StillSeen;
  }

  /** Since it was last noted, at time `t`, the message is on the list with that time, or not at all. In the day after
      that it is on the list exactly if no full list has given it up. */
  lemma {:induction false} ListedSince(worlds: seq<World>, actions: seq<Action>, n: nat, m: nat, id: string, t: int)
    requires IsRun(worlds, actions) && n <= m <= |actions|
    requires id in worlds[n].seen && worlds[n].seen[id] == t && NotNoted(worlds, actions, n, m, id)
    ensures id in worlds[m].seen ==> worlds[m].seen[id] == t
    ensures worlds[m].now <= t + D.DAY ==> (id in worlds[m].seen <==> Remembered(worlds, actions, n, m, id))
    decreases m
  {
    hide Step, Notes, GivesUp;
    if n < m {
      ListedSince(worlds, actions, n, m - 1, id, t);
      ReachableIsSound(worlds, actions, m - 1);
      StepRemembers(worlds[m - 1], actions[m - 1], worlds[m], id);
      StepMovesOn(worlds[m - 1], actions[m - 1], worlds[m]);
    }
  }

  lemma ListedAfterNoting(worlds: seq<World>, actions: seq<Action>, n: nat, m: nat, id: string)
    requires IsRun(worlds, actions) && n < m <= |actions| && Notes(worlds[n], actions[n], id)
    requires NotNoted(worlds, actions, n + 1, m, id)
    ensures id in worlds[m].seen ==> worlds[m].seen[id] == worlds[n].now
    ensures worlds[m].now <= worlds[n].now + D.DAY ==>
      (id in worlds[m].seen <==> Remembered(worlds, actions, n + 1, m, id))
  {
    hide Step, Notes, Remembered, NotNoted;
    NotedNow(worlds[n], actions[n], worlds[n + 1], id);
    ListedSince(worlds, actions, n + 1, m, id, worlds[n].now);
  }

  lemma ReceivedIff(w: World, id: string, envelope: string, outcome: Result<Received, InboxError>, w': World, t: int)
    requires Step(w, Receive(id, envelope, outcome), w') && (id in w.seen ==> w.seen[id] == t)
    requires id != "" && id !in w.inbox && |w.inbox| < MAX_INBOX
    ensures outcome.Ok? && (outcome.value.created <==> w.now > t + D.DAY || id !in w.seen)
    ensures !outcome.value.created ==> w'.inbox == w.inbox
  {
    hide ReceiveStep;
    if id in w.seen && w.now <= t + D.DAY {
      TurnedAway(w.inbox, w.seen, id, envelope, w.now, w'.inbox, w'.seen, outcome);
    } else {
      TakenIn(w.inbox, w.seen, id, envelope, w.now, w'.inbox, w'.seen, outcome);
    }
  }

  /** A message that was last handled at time `t` and comes again, while it is not waiting and there is room, is taken
      in exactly if more than a day has passed or a full list of handled messages has given it up. */
  lemma CreatedAgainIff(worlds: seq<World>, actions: seq<Action>, n: nat, m: nat, id: string, envelope: string,
                        outcome: Result<Received, InboxError>)
    requires IsRun(worlds, actions) && n < m < |actions| && id != "" && Notes(worlds[n], actions[n], id)
    requires NotNoted(worlds, actions, n + 1, m, id) && actions[m] == Receive(id, envelope, outcome)
    requires id !in worlds[m].inbox && |worlds[m].inbox| < MAX_INBOX
    ensures outcome.Ok? && (outcome.value.created <==>
      worlds[m].now > worlds[n].now + D.DAY || !Remembered(worlds, actions, n + 1, m, id))
    ensures !outcome.value.created ==> worlds[m + 1].inbox == worlds[m].inbox
  {
    assert Step(worlds[m], actions[m], worlds[m + 1]);
    hide Step, Notes, Remembered, NotNoted, IsRun;
    ListedAfterNoting(worlds, actions, n, m, id);
    ReceivedIff(worlds[m], id, envelope, outcome, worlds[m + 1], worlds[n].now);
  }
}
