/** Webhooks, the inbox drainer and the workers, interleaved: who holds a message, and that none is lost. */
module EventScheduling {
  import Sets
  import opened Wrappers
  import opened EventInbox
  import D = Delivery

  const QUEUE_CAPACITY := 1_024
  const WORKERS := 4

  /** What a worker has to record after it gave up its reservation. */
  datatype Verdict = Verdict(id: string, failure: Option<string>)

  /** The failures recorded for a message since it was received or last retried, and when that was. */
  datatype Life = Life(failures: nat, since: int)

  /** A message that left the inbox without having been processed. */
  datatype Burial = Burial(life: Life, at: int)

  /** `reserved` and `refused` are the messages whose scheduling is under way: not yet offered to the queue, or turned
      away by it. `accepted`, `succeeded` and `revocations` are the messages ever taken into the inbox, processed
      without error, or noted as revocations; `lives` and `buried` record what befell messages in the inbox and
      messages that left it. */
  datatype World = World(
    inbox: Inbox, seen: Seen,
    inFlight: set<string>, reserved: set<string>, refused: set<string>, queue: seq<string>,
    working: map<nat, string>, finishing: map<nat, Verdict>,
    accepted: set<string>, succeeded: set<string>, revocations: set<string>,
    lives: map<string, Life>, buried: map<string, Burial>, now: int)

  datatype Action =
    | Receive(id: string, envelope: string, outcome: Result<Received, InboxError>)
    | Reserve(id: string)
    | Admit(id: string)
    | Refuse(id: string)
    | GiveBack(id: string)
    | Take(worker: nat)
    | Release(worker: nat, failure: Option<string>)
    | Conclude(worker: nat, stored: bool)
    | Retry(id: string)
    | NoteRevocation(id: string)
    | CleanUp
    | Wait(until: int)

  const START := World(map[], map[], {}, {}, {}, [], map[], map[], {}, {}, {}, map[], map[], 1)

  function LifeOf(w: World, id: string): Life {
    if id in w.lives then w.lives[id] else Life(0, w.now)
  }

  /** Whatever is no longer in the inbox is buried, with the life it had. */
  function Bury(w: World, inbox': Inbox): map<string, Burial> {
    w.buried + map id | id in w.inbox && id !in inbox' :: Burial(LifeOf(w, id), w.now)
  }

  ghost predicate ConcludeStep(w: World, worker: nat, stored: bool, w': World)
    requires worker in w.finishing
  {
    var v := w.finishing[worker];
    var done := w.(finishing := w.finishing - {worker});
    if !stored then w' == done
    else if v.failure.Some? then
      var life := LifeOf(w, v.id);
      w' == done.(inbox := FailedIn(w.inbox, v.id, v.failure.value, w.now),
                  lives := if v.id in w.inbox then w.lives[v.id := life.(failures := life.failures + 1)] else w.lives)
    else
      && w' == done.(inbox := w'.inbox, seen := w'.seen)
      && exists outcome :: CompleteStep(w.inbox, w.seen, v.id, w.now, w'.inbox, w'.seen, outcome)
  }

  ghost predicate Step(w: World, action: Action, w': World) {
    match action
    case Receive(id, envelope, outcome) =>
      && ReceiveStep(w.inbox, w.seen, id, envelope, w.now, w'.inbox, w'.seen, outcome)
      && w' == w.(inbox := w'.inbox, seen := w'.seen, buried := Bury(w, w'.inbox),
                  accepted := if outcome.Ok? && outcome.value.created then w.accepted + {id} else w.accepted,
                  lives := if outcome.Ok? && outcome.value.created then w.lives[id := Life(0, w.now)] else w.lives)
    case Reserve(id) =>
      && id in w.accepted && id !in w.inFlight
      && w' == w.(inFlight := w.inFlight + {id}, reserved := w.reserved + {id})
    case Admit(id) =>
      id in w.reserved && |w.queue| < QUEUE_CAPACITY && w' == w.(reserved := w.reserved - {id}, queue := w.queue + [id])
    case Refuse(id) =>
      id in w.reserved && |w.queue| >= QUEUE_CAPACITY
      && w' == w.(reserved := w.reserved - {id}, refused := w.refused + {id})
    case GiveBack(id) =>
      id in w.refused && w' == w.(refused := w.refused - {id}, inFlight := w.inFlight - {id})
    case Take(worker) =>
      && worker < WORKERS && worker !in w.working && worker !in w.finishing && w.queue != []
      && w' == w.(queue := w.queue[1..], working := w.working[worker := w.queue[0]])
    case Release(worker, failure) =>
      && worker in w.working
      && var id := w.working[worker];
         w' == w.(inFlight := w.inFlight - {id}, working := w.working - {worker},
                  finishing := w.finishing[worker := Verdict(id, failure)],
                  succeeded := if failure.None? then w.succeeded + {id} else w.succeeded)
    case Conclude(worker, stored) => worker in w.finishing && ConcludeStep(w, worker, stored, w')
    case Retry(id) => w' == w.(inbox := RetriedIn(w.inbox, id, w.now),
                               lives := if id in w.inbox then w.lives[id := Life(0, w.now)] else w.lives)
    case NoteRevocation(id) =>
      && (if id in StillSeen(w.seen, w.now) then w'.seen == StillSeen(w.seen, w.now)
          else SeenAdded(StillSeen(w.seen, w.now), id, w.now, w'.seen))
      && w' == w.(seen := w'.seen, revocations := w.revocations + {id})
    case CleanUp =>
      w' == w.(inbox := SweptInbox(w.inbox, w.now), seen := StillSeen(w.seen, w.now),
               buried := Bury(w, SweptInbox(w.inbox, w.now)))
    case Wait(until) => until >= w.now && w' == w.(now := until)
  }

  // ---------------------------------------------------------------- where messages are

  predicate Queued(w: World, id: string) {
    exists i | 0 <= i < |w.queue| :: w.queue[i] == id
  }

  predicate Working(w: World, id: string) {
    exists worker | worker in w.working :: w.working[worker] == id
  }

  /** The message is in exactly one of the places that hold a reservation. */
  predicate InOnePlace(w: World, id: string) {
    || (id in w.reserved && id !in w.refused && !Queued(w, id) && !Working(w, id))
    || (id !in w.reserved && id in w.refused && !Queued(w, id) && !Working(w, id))
    || (id !in w.reserved && id !in w.refused && Queued(w, id) && !Working(w, id))
    || (id !in w.reserved && id !in w.refused && !Queued(w, id) && Working(w, id))
  }

  predicate Nowhere(w: World, id: string) {
    id !in w.reserved && id !in w.refused && !Queued(w, id) && !Working(w, id)
  }

  predicate Held(w: World, id: string) {
    if id in w.inFlight then InOnePlace(w, id) else Nowhere(w, id)
  }

  /** Reservations are exactly the messages being scheduled, queued or processed; nothing is held twice. */
  ghost predicate Placed(w: World) {
    && (forall id :: Held(w, id))
    && (forall i, j | 0 <= i < j < |w.queue| :: w.queue[i] != w.queue[j])
    && (forall a, b | a in w.working && b in w.working && a != b :: w.working[a] != w.working[b])
    && |w.queue| <= QUEUE_CAPACITY
    && (forall worker | worker in w.working :: worker < WORKERS && worker !in w.finishing)
    && (forall worker | worker in w.finishing :: worker < WORKERS)
  }

  lemma SameHolders(w: World, w': World)
    requires Placed(w) && w'.inFlight == w.inFlight && w'.reserved == w.reserved && w'.refused == w.refused
    requires w'.queue == w.queue
    requires w'.working == w.working && forall worker | worker in w'.finishing :: worker in w.finishing
    ensures Placed(w')
  {
    forall id ensures Held(w', id) {
      assert Held(w, id) && Queued(w', id) == Queued(w, id) && Working(w', id) == Working(w, id);
    }
  }

  lemma ReserveKeepsPlaced(w: World, id: string, w': World)
    requires Placed(w) && Step(w, Reserve(id), w')
    ensures Placed(w')
  {
    forall other ensures Held(w', other) {
      assert Held(w, other) && Queued(w', other) == Queued(w, other) && Working(w', other) == Working(w, other);
    }
  }

  lemma AdmitKeepsPlaced(w: World, id: string, w': World)
    requires Placed(w) && Step(w, Admit(id), w')
    ensures Placed(w')
  {
    assert Held(w, id);
    forall other ensures Held(w', other) {
      assert Held(w, other);
      assert w'.queue[|w.queue|] == id;
      if Queued(w, other) {
        var i :| 0 <= i < |w.queue| && w.queue[i] == other;
        assert w'.queue[i] == other;
      }
    }
    assert forall i | 0 <= i < |w.queue| :: Held(w, w.queue[i]) && Queued(w, w.queue[i]);
  }

  lemma RefuseKeepsPlaced(w: World, id: string, w': World)
    requires Placed(w) && (Step(w, Refuse(id), w') || Step(w, GiveBack(id), w'))
    ensures Placed(w')
  {
    forall other ensures Held(w', other) {
      assert Held(w, other) && Queued(w', other) == Queued(w, other) && Working(w', other) == Working(w, other);
    }
  }

  lemma TakeKeepsPlaced(w: World, worker: nat, w': World)
    requires Placed(w) && Step(w, Take(worker), w')
    ensures Placed(w')
  {
    var id := w.queue[0];
    assert Queued(w, id) && Held(w, id);
    forall other ensures Held(w', other) {
      assert Held(w, other);
      if Queued(w, other) && other != id {
        var i :| 0 <= i < |w.queue| && w.queue[i] == other;
        assert w'.queue[i - 1] == other;
      }
      assert w'.working[worker] == id;
      if Working(w, other) {
        var k :| k in w.working && w.working[k] == other;
        assert w'.working[k] == other;
      }
    }
    assert forall k | k in w.working :: Held(w, w.working[k]) && Working(w, w.working[k]);
  }

  lemma ReleaseKeepsPlaced(w: World, worker: nat, failure: Option<string>, w': World)
    requires Placed(w) && Step(w, Release(worker, failure), w')
    ensures Placed(w')
  {
    var id := w.working[worker];
    assert Working(w, id) && Held(w, id);
    forall other ensures Held(w', other) {
      assert Held(w, other) && Queued(w', other) == Queued(w, other);
      if Working(w, other) && other != id {
        var k :| k in w.working && w.working[k] == other;
        assert w'.working[k] == other;
      }
    }
  }

  lemma StepKeepsPlaced(w: World, action: Action, w': World)
    requires Placed(w) && Step(w, action, w')
    ensures Placed(w')
  {
    match action {
      case Reserve(id) => hide *; ReserveKeepsPlaced(w, id, w');
      case Admit(id) => hide *; AdmitKeepsPlaced(w, id, w');
      case Refuse(id) => hide *; RefuseKeepsPlaced(w, id, w');
      case GiveBack(id) => hide *; RefuseKeepsPlaced(w, id, w');
      case Take(worker) => hide *; TakeKeepsPlaced(w, worker, w');
      case Release(worker, failure) => hide *; ReleaseKeepsPlaced(w, worker, failure, w');
      case _ =>
        hide Placed, ReceiveStep, CompleteStep, SweptInbox, StillSeen, SeenAdded, FailedIn, RetriedIn;
        SameHolders(w, w');
    }
  }

  // ---------------------------------------------------------------- no message is lost

  /** Every message taken in is in the inbox until it was processed without error or died there, and only such
      messages count as handled. */
  ghost predicate Durable(w: World) {
    && (forall id | id in w.accepted :: id in w.inbox || id in w.succeeded || id in w.buried)
    && (forall id | id in w.inbox :: id in w.accepted)
    && (forall id | id in w.seen :: id in w.succeeded || id in w.revocations)
    && (forall worker | worker in w.working :: w.working[worker] in w.accepted)
    && (forall worker | worker in w.finishing && w.finishing[worker].failure.None? ::
          w.finishing[worker].id in w.succeeded)
    && w.inFlight <= w.accepted
    && Bounded(w.inbox, w.seen)
  }

  lemma ReceiveKeepsDurable(w: World, id: string, envelope: string, outcome: Result<Received, InboxError>, w': World)
    requires Durable(w) && Step(w, Receive(id, envelope, outcome), w')
    ensures Durable(w')
    ensures forall other | other in w.inbox && Open(w.inbox[other], w.now) :: other in w'.inbox
  {
    hide ReceiveStep, Bounded;
    ReceiveKeeps(w.inbox, w.seen, id, envelope, w.now, w'.inbox, w'.seen, outcome);
  }

  /** What recording a verdict does to inbox and list: only a processed message leaves, and only it is added. */
  lemma ConcludeChanges(w: World, worker: nat, stored: bool, w': World)
    requires Bounded(w.inbox, w.seen) && worker in w.finishing && ConcludeStep(w, worker, stored, w')
    ensures Bounded(w'.inbox, w'.seen)
    ensures forall id | id in w'.inbox :: id in w.inbox
    ensures var v := w.finishing[worker];
      && (forall id | id in w.inbox && id !in w'.inbox :: v.failure.None? && id == v.id)
      && (forall id | id in w'.seen && id !in w.seen :: v.failure.None? && id == v.id)
  {
    var v := w.finishing[worker];
    if stored && v.failure.Some? {
      FailedSameKeys(w.inbox, v.id, v.failure.value, w.now);
      hide FailedIn;
      SameSize(w.inbox, w'.inbox, w.seen);
    } else if stored {
      hide CompleteStep;
      var outcome :| CompleteStep(w.inbox, w.seen, v.id, w.now, w'.inbox, w'.seen, outcome);
      CompleteChanges(w.inbox, w.seen, v.id, w.now, w'.inbox, w'.seen, outcome);
    }
  }

  lemma FailedSameKeys(inbox: Inbox, id: string, failure: string, at: int)
    ensures FailedIn(inbox, id, failure, at).Keys == inbox.Keys
  {
    hide FailedEntry;
  }

  lemma CompleteChanges(inbox: Inbox, seen: Seen, id: string, at: int, inbox': Inbox, seen': Seen,
                        outcome: Result<(), InboxError>)
    requires Bounded(inbox, seen) && CompleteStep(inbox, seen, id, at, inbox', seen', outcome)
    ensures Bounded(inbox', seen') && forall other | other in inbox' :: other in inbox
    ensures forall other | other in inbox && other !in inbox' :: other == id
    ensures forall other | other in seen' && other !in seen :: other == id
  {
    hide SeenAdded;
    if id in inbox {
      SeenAddedKeeps(seen, id, at, seen');
      Sets.SubsetSize((inbox - {id}).Keys, inbox.Keys);
    }
  }

  lemma ConcludeKeepsDurable(w: World, worker: nat, stored: bool, w': World)
    requires Durable(w) && Step(w, Conclude(worker, stored), w')
    ensures Durable(w')
    ensures forall id | id in w.inbox && id !in w'.inbox :: id in w.succeeded
  {
    hide Bounded, CompleteStep, FailedIn;
    ConcludeChanges(w, worker, stored, w');
    assert w.finishing[worker].failure.None? ==> w.finishing[worker].id in w.succeeded;
    hide Durable;
    ConcludedDurable(w, worker, w');
  }

  lemma ConcludedDurable(w: World, worker: nat, w': World)
    requires Durable(w) && worker in w.finishing && Bounded(w'.inbox, w'.seen)
    requires w'.finishing == w.finishing - {worker} && w'.working == w.working && w'.inFlight == w.inFlight
    requires w'.accepted == w.accepted && w'.succeeded == w.succeeded && w'.buried == w.buried
    requires w'.revocations == w.revocations && forall id | id in w'.inbox :: id in w.inbox
    requires forall id | id in w.inbox && id !in w'.inbox :: id in w.succeeded
    requires forall id | id in w'.seen && id !in w.seen :: id in w.succeeded
    ensures Durable(w')
  {
    hide Bounded;
  }

  lemma CleanUpKeepsDurable(w: World, w': World)
    requires Durable(w) && Step(w, CleanUp, w')
    ensures Durable(w')
    ensures forall id | id in w.inbox && Open(w.inbox[id], w.now) :: id in w'.inbox
  {
    hide ReceiveStep, ConcludeStep, SeenAdded, RetriedIn;
    SweepKeepsOpen(w.inbox, w.now);
    SweepShrinks(w.inbox, w.now);
    SeenShrinks(w.seen, w.now);
    hide SweptInbox, StillSeen, Open;
    BuryCovers(w, w'.inbox);
    hide Bury, Bounded;
    assert Bounded(w'.inbox, w'.seen) by { SmallerBounded(w.inbox, w.seen, w'.inbox, w'.seen); }
  }

  lemma SmallerBounded(inbox: Inbox, seen: Seen, inbox': Inbox, seen': Seen)
    requires Bounded(inbox, seen) && |inbox'| <= |inbox| && |seen'| <= |seen|
    ensures Bounded(inbox', seen')
  {
  }

  lemma BuryCovers(w: World, inbox': Inbox)
    ensures forall id | id in w.inbox :: id in inbox' || id in Bury(w, inbox')
    ensures forall id | id in w.buried :: id in Bury(w, inbox')
  {
  }

  lemma SweepShrinks(inbox: Inbox, now: int)
    ensures forall id | id in SweptInbox(inbox, now) :: id in inbox
  {
  }

  lemma NoteKeepsDurable(w: World, id: string, w': World)
    requires Durable(w) && Step(w, NoteRevocation(id), w')
    ensures Durable(w')
  {
    SeenShrinks(w.seen, w.now);
    hide StillSeen, SeenAdded;
    if id !in StillSeen(w.seen, w.now) {
      SeenAddedKeeps(StillSeen(w.seen, w.now), id, w.now, w'.seen);
    }
    assert Bounded(w'.inbox, w'.seen);
    hide Bounded, Durable;
    NotedDurable(w, id, w');
  }

  lemma NotedDurable(w: World, id: string, w': World)
    requires Durable(w) && w' == w.(seen := w'.seen, revocations := w.revocations + {id})
    requires Bounded(w'.inbox, w'.seen) && forall other | other in w'.seen :: other == id || other in w.seen
    ensures Durable(w')
  {
    hide Bounded;
  }

  lemma MoveKeepsDurable(w: World, action: Action, w': World)
    requires Placed(w) && Durable(w) && Step(w, action, w')
    requires !action.Receive? && !action.Conclude? && !action.CleanUp? && !action.NoteRevocation?
    ensures Durable(w') && w'.inbox.Keys == w.inbox.Keys
  {
    hide Bounded, Placed, ReceiveStep, ConcludeStep, SeenAdded, StillSeen, SweptInbox, Bury;
    match action {
      case Take(worker) =>
        assert w.queue[0] in w.inFlight by { OnlyReservedQueued(w, 0); }
      case Retry(id) =>
        assert w'.inbox.Keys == w.inbox.Keys;
        assert Bounded(w'.inbox, w'.seen) by { SameSize(w.inbox, w'.inbox, w.seen); }
      case _ =>
    }
  }

  lemma OnlyReservedQueued(w: World, i: nat)
    requires Placed(w) && i < |w.queue|
    ensures w.queue[i] in w.inFlight
  {
    assert Held(w, w.queue[i]) && Queued(w, w.queue[i]);
  }

  lemma SameSize(inbox: Inbox, inbox': Inbox, seen: Seen)
    requires Bounded(inbox, seen) && inbox'.Keys == inbox.Keys
    ensures Bounded(inbox', seen)
  {
  }

  /** A message that may still be processed leaves the inbox only after it was processed without error. */
  lemma StepKeepsDurable(w: World, action: Action, w': World)
    requires Placed(w) && Durable(w) && Step(w, action, w')
    ensures Durable(w')
    ensures forall id | id in w.inbox && Open(w.inbox[id], w.now) && id !in w'.inbox :: id in w.succeeded
  {
    hide Step, Placed, Durable, Open;
    match action {
      case Receive(id, envelope, outcome) => ReceiveKeepsDurable(w, id, envelope, outcome, w');
      case Conclude(worker, stored) => ConcludeKeepsDurable(w, worker, stored, w');
      case CleanUp => CleanUpKeepsDurable(w, w');
      case NoteRevocation(id) => NoteKeepsDurable(w, id, w'); assert w'.inbox == w.inbox by { NoteInbox(w, id, w'); }
      case _ => MoveKeepsDurable(w, action, w');
    }
  }

  lemma NoteInbox(w: World, id: string, w': World)
    requires Step(w, NoteRevocation(id), w')
    ensures w'.inbox == w.inbox
  {
  }

  // ---------------------------------------------------------------- what a message dies of

  /** Eight failures since it was received or last retried, or a day without success. */
  predicate Spent(l: Life, now: int) {
    l.failures >= D.MAX_ATTEMPTS || now >= l.since + D.DAY
  }

  predicate Fits(e: Entry, l: Life, now: int) {
    e.attemptCount == l.failures && e.expiresAt == l.since + D.DAY && l.since <= now
    && (e.status == DeadLetter ==> Spent(l, now))
  }

  ghost predicate InboxLived(inbox: Inbox, lives: map<string, Life>, now: int) {
    forall id | id in inbox :: id in lives && Fits(inbox[id], lives[id], now)
  }

  ghost predicate BuriedSpent(buried: map<string, Burial>) {
    forall id | id in buried :: Spent(buried[id].life, buried[id].at)
  }

  ghost predicate Lived(w: World) {
    InboxLived(w.inbox, w.lives, w.now) && BuriedSpent(w.buried)
  }

  /** Entries that go were spent. */
  lemma BurySpent(w: World, inbox': Inbox)
    requires Lived(w)
    requires forall id | id in w.inbox && id !in inbox' ::
      w.inbox[id].status == DeadLetter || w.now >= w.inbox[id].expiresAt
    ensures BuriedSpent(Bury(w, inbox'))
  {
  }

  lemma ReceiveKeepsLived(w: World, id: string, envelope: string, outcome: Result<Received, InboxError>, w': World)
    requires Lived(w) && Bounded(w.inbox, w.seen) && Step(w, Receive(id, envelope, outcome), w')
    ensures Lived(w')
  {
    ReceiveKeeps(w.inbox, w.seen, id, envelope, w.now, w'.inbox, w'.seen, outcome);
    if outcome.Ok? && outcome.value.created {
      ReceivedEntry(w.inbox, w.seen, id, envelope, w.now, w'.inbox, w'.seen, outcome);
    }
    hide ReceiveStep, Bounded, Bury;
    BurySpent(w, w'.inbox);
    hide BuriedSpent;
    ReceivedLives(w, id, envelope, w'.inbox, outcome.Ok? && outcome.value.created);
  }

  lemma ReceivedLives(w: World, id: string, envelope: string, inbox': Inbox, created: bool)
    requires InboxLived(w.inbox, w.lives, w.now)
    requires created ==> id in inbox' && inbox'[id] == NewEntry(envelope, w.now)
    requires forall other | other in inbox' && (other != id || !created) ::
      other in w.inbox && inbox'[other] == w.inbox[other]
    ensures InboxLived(inbox', if created then w.lives[id := Life(0, w.now)] else w.lives, w.now)
  {
    hide Spent;
  }

  lemma ReceivedEntry(inbox: Inbox, seen: Seen, id: string, envelope: string, now: int, inbox': Inbox, seen': Seen,
                      outcome: Result<Received, InboxError>)
    requires ReceiveStep(inbox, seen, id, envelope, now, inbox', seen', outcome) && outcome.Ok? && outcome.value.created
    ensures id in inbox' && inbox'[id] == NewEntry(envelope, now) && id !in inbox
  {
    hide InboxRoom, StillSeen;
  }

  lemma ConcludeKeepsLived(w: World, worker: nat, stored: bool, w': World)
    requires Lived(w) && Step(w, Conclude(worker, stored), w')
    ensures Lived(w')
  {
    var v := w.finishing[worker];
    if stored && v.failure.Some? {
      FailedLives(w, v.id, v.failure.value);
    }
    hide SeenAdded, FailedIn, Fits, Spent;
  }

  lemma FailedLives(w: World, id: string, failure: string)
    requires InboxLived(w.inbox, w.lives, w.now)
    ensures var life := LifeOf(w, id);
      InboxLived(FailedIn(w.inbox, id, failure, w.now),
                 if id in w.inbox then w.lives[id := life.(failures := life.failures + 1)] else w.lives, w.now)
  {
    hide D.RetryDelay;
  }

  lemma CleanUpKeepsLived(w: World, w': World)
    requires Lived(w) && Step(w, CleanUp, w')
    ensures Lived(w')
  {
    hide ReceiveStep, ConcludeStep, SeenAdded, RetriedIn, StillSeen;
    SweptLived(w.inbox, w.lives, w.now);
    SweptGone(w.inbox, w.now);
    hide SweptInbox, Bury;
    BurySpent(w, w'.inbox);
  }

  lemma SweptLived(inbox: Inbox, lives: map<string, Life>, now: int)
    requires InboxLived(inbox, lives, now)
    ensures InboxLived(SweptInbox(inbox, now), lives, now)
  {
  }

  lemma SweptGone(inbox: Inbox, now: int)
    ensures forall id | id in inbox && id !in SweptInbox(inbox, now) ::
      inbox[id].status == DeadLetter || now >= inbox[id].expiresAt
  {
  }

  lemma OtherKeepsLived(w: World, action: Action, w': World)
    requires Lived(w) && Step(w, action, w') && !action.Receive? && !action.Conclude? && !action.CleanUp?
    ensures Lived(w')
  {
    hide ReceiveStep, ConcludeStep, SeenAdded, StillSeen, SweptInbox, Bury;
  }

  lemma StepKeepsLived(w: World, action: Action, w': World)
    requires Durable(w) && Lived(w) && Step(w, action, w')
    ensures Lived(w')
  {
    assert Bounded(w.inbox, w.seen);
    hide Step, Durable, Lived, Bounded;
    match action {
      case Receive(id, envelope, outcome) => ReceiveKeepsLived(w, id, envelope, outcome, w');
      case Conclude(worker, stored) => ConcludeKeepsLived(w, worker, stored, w');
      case CleanUp => CleanUpKeepsLived(w, w');
      case _ => OtherKeepsLived(w, action, w');
    }
  }

  // ---------------------------------------------------------------- runs

  ghost predicate IsRun(worlds: seq<World>, actions: seq<Action>) {
    && |worlds| == |actions| + 1 && worlds[0] == START
    && forall i | 0 <= i < |actions| :: Step(worlds[i], actions[i], worlds[i + 1])
  }

  lemma {:induction false} ReachableIsSound(worlds: seq<World>, actions: seq<Action>, n: nat)
    requires IsRun(worlds, actions) && n <= |actions|
    ensures Placed(worlds[n]) && Durable(worlds[n]) && Lived(worlds[n])
  {
    hide Step;
    if n > 0 {
      hide Placed, Durable, Lived;
      ReachableIsSound(worlds, actions, n - 1);
      StepKeepsPlaced(worlds[n - 1], actions[n - 1], worlds[n]);
      StepKeepsDurable(worlds[n - 1], actions[n - 1], worlds[n]);
      StepKeepsLived(worlds[n - 1], actions[n - 1], worlds[n]);
    }
  }

  /** In every interleaving a message is reserved exactly while it is being scheduled, queued or processed, in one of
      these places only; so no two workers ever process the same message at the same time. */
  lemma HeldOnce(worlds: seq<World>, actions: seq<Action>, n: nat, id: string, a: nat, b: nat)
    requires IsRun(worlds, actions) && n <= |actions|
    ensures var w := worlds[n];
      && (id in w.inFlight <==> id in w.reserved || id in w.refused || Queued(w, id) || Working(w, id))
      && (id in w.inFlight ==> InOnePlace(w, id))
      && |w.queue| <= QUEUE_CAPACITY
      && (a in w.working && b in w.working && w.working[a] == w.working[b] ==> a == b)
  {
    ReachableIsSound(worlds, actions, n);
    hide Step, Durable, Queued, Working;
    assert Held(worlds[n], id);
  }

  /** No message is lost: it waits in the inbox until it was processed without error, unless it has failed eight times
      or a whole day has passed since it was received or last retried. */
  lemma NoMessageIsLost(worlds: seq<World>, actions: seq<Action>, n: nat, id: string)
    requires IsRun(worlds, actions) && n <= |actions| && id in worlds[n].accepted
    ensures var w := worlds[n];
      id in w.inbox || id in w.succeeded || (id in w.buried && Spent(w.buried[id].life, w.buried[id].at))
  {
    ReachableIsSound(worlds, actions, n);
    hide Step, Placed;
  }

  /** And for the same reasons only it becomes a dead letter. */
  lemma DeadLettersAreSpent(worlds: seq<World>, actions: seq<Action>, n: nat, id: string)
    requires IsRun(worlds, actions) && n <= |actions| && id in worlds[n].inbox
    requires worlds[n].inbox[id].status == DeadLetter
    ensures id in worlds[n].lives && Spent(worlds[n].lives[id], worlds[n].now)
  {
    ReachableIsSound(worlds, actions, n);
    hide Step, Placed, Durable;
  }

  /** A worker gives its reservation back before it records completion, so a message that was just processed without
      error can be taken up by another worker. */
  lemma ProcessedAgain(w: World, worker: nat, other: nat)
    returns (released: World, reserved: World, queued: World, again: World)
    requires Placed(w) && Durable(w) && worker in w.working && w.queue == []
    requires other < WORKERS && other !in w.working && other !in w.finishing
    ensures var id := w.working[worker];
      && Step(w, Release(worker, None), released) && Step(released, Reserve(id), reserved)
      && Step(reserved, Admit(id), queued) && Step(queued, Take(other), again)
      && id in again.succeeded && again.inbox == w.inbox && Working(again, id)
  {
    hide Durable, Placed, ConcludeStep, ReceiveStep, SeenAdded, StillSeen, SweptInbox, RetriedIn, Bury;
    var id := w.working[worker];
    WorkedAreAccepted(w, worker);
    assert other != worker;
    released := w.(inFlight := w.inFlight - {id}, working := w.working - {worker},
                   finishing := w.finishing[worker := Verdict(id, None)], succeeded := w.succeeded + {id});
    reserved := released.(inFlight := released.inFlight + {id}, reserved := released.reserved + {id});
    queued := reserved.(reserved := reserved.reserved - {id}, queue := [id]);
    again := queued.(queue := [], working := queued.working[other := id]);
    assert again.working[other] == id;
  }

  lemma WorkedAreAccepted(w: World, worker: nat)
    requires Durable(w) && worker in w.working
    ensures w.working[worker] in w.accepted
  {
  }

  // ---------------------------------------------------------------- the server's part

  class EventScheduler {
    var inFlight: set<string>
    var queue: seq<string>

    constructor ()
      ensures inFlight == {} && queue == []
    {
      inFlight, queue := {}, [];
    }

    method ReserveEventSub(id: string) returns (reserved: bool)
      modifies this
      ensures reserved <==> id !in old(inFlight)
      ensures inFlight == old(inFlight) + {id} && queue == old(queue)
    {
      if id in inFlight {
        return false;
      }
      inFlight := inFlight + {id};
      reserved := true;
    }

    method ReleaseEventSub(id: string)
      modifies this
      ensures inFlight == old(inFlight) - {id} && queue == old(queue)
    {
      inFlight := inFlight - {id};
    }

    /** A message that cannot be queued leaves no reservation behind. */
    method ScheduleEventSub(id: string, entry: Entry) returns (scheduled: bool)
      modifies this
      ensures scheduled <==> id != "" && entry.status == Waiting && id !in old(inFlight)
                             && |old(queue)| < QUEUE_CAPACITY
      ensures scheduled ==> inFlight == old(inFlight) + {id} && queue == old(queue) + [id]
      ensures !scheduled ==> inFlight == old(inFlight) && queue == old(queue)
    {
      if id == "" || entry.status != Waiting {
        return false;
      }
      var reserved := ReserveEventSub(id);
      if !reserved {
        return false;
      }
      if |queue| < QUEUE_CAPACITY {
        queue := queue + [id];
        return true;
      }
      ReleaseEventSub(id);
      return false;
    }

    /** The end of a worker's turn: first the reservation goes, then the inbox learns the result. */
    method FinishEventSub(store: EventInbox, id: string, failure: Option<string>, at: int)
      modifies this, store
      ensures inFlight == old(inFlight) - {id} && queue == old(queue)
      ensures failure.Some? ==>
        store.inbox == FailedIn(old(store.inbox), id, failure.value, at) && store.seen == old(store.seen)
      ensures failure.None? ==>
        exists outcome :: CompleteStep(old(store.inbox), old(store.seen), id, at, store.inbox, store.seen, outcome)
    {
      ReleaseEventSub(id);
      if failure.Some? {
        var _ := store.MarkEventSubFailed(id, failure.value, at);
        return;
      }
      var outcome := store.CompleteEventSub(id, at);
    }
  }
}
