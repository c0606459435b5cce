/** How long a message may be repeated: within seven days its records are retained, after that it is delivered again. */
module EventRetention {
  import opened Wrappers
  import opened Text
  import opened Registrations
  import opened Delivery
  import opened DeliveryStore
  import opened Sparing
  import opened EventProcessing
  import R = DeliveryRuns

  // ---------------------------------------------------------------- within seven days

  /** Created, and if acknowledged acknowledged, no earlier than at the given time. */
  predicate Dated(r: Record, start: int) {
    r.createdAt >= start && (r.status == Acked ==> r.ackedAt >= start)
  }

  predicate AllDated(records: Records, eventID: string, start: int) {
    forall id | id in records && records[id].eventID == eventID :: Dated(records[id], start)
  }

  /** A flush that is about to acknowledge a record of the event sent it no earlier than at the given time. */
  predicate AcksDated(w: R.World, eventID: string, start: int) {
    forall i | i in w.flushing && w.flushing[i].acking.Some? :: SendDated(w.flushing[i].acking.value, eventID, start)
  }

  predicate SendDated(sent: R.Sending, eventID: string, start: int) {
    sent.record.eventID == eventID ==> sent.at >= start
  }

  lemma DatedIsRetained(records: Records, eventID: string, start: int, now: int)
    requires AllDated(records, eventID, start) && now - start <= RETENTION
    ensures Retained(records, eventID, now)
  {
  }

  lemma SweepDated(records: Records, eventID: string, start: int, now: int)
    requires AllDated(records, eventID, start)
    ensures AllDated(Swept(records, now), eventID, start)
  {
  }

  lemma FewerDated(before: Records, after: Records, eventID: string, start: int)
    requires AllDated(before, eventID, start) && forall id | id in after :: id in before && after[id] == before[id]
    ensures AllDated(after, eventID, start)
  {
  }

  lemma NewDated(room: Records, r: Record, now: int, eventID: string, start: int)
    requires AllDated(room, eventID, start) && start <= now && r.status == Pending
    requires (r.eventID == eventID ==> r.createdAt == now)
    ensures AllDated(room[r.id := Prepared(r, now)], eventID, start)
  {
  }

  lemma EnqueueDated(before: Records, r: Record, now: int, after: Records, outcome: Result<Enqueued, StoreError>,
                     eventID: string, start: int)
    requires AllDated(before, eventID, start) && EnqueueStep(before, r, now, after, outcome) && Valid(before)
    requires start <= now && r.status == Pending && (r.eventID == eventID ==> r.createdAt == now)
    ensures AllDated(after, eventID, start)
  {
    var swept := Swept(before, now);
    SweepKeeps(before, now);
    SweepDated(before, eventID, start, now);
    hide Swept, Valid, KeepsLive, HasKey, AllDated, MadeRoom;
    if !HasKey(swept, KeyOf(r)) && Complete(r) {
      if outcome.Err? {
        RoomKeeps(swept, after, now);
        FewerDated(swept, after, eventID, start);
      } else {
        var room :| MadeRoom(swept, room) && |room| < MAX_RECORDS && after == room[r.id := Prepared(r, now)];
        RoomKeeps(swept, room, now);
        FewerDated(swept, room, eventID, start);
        NewDated(room, r, now, eventID, start);
      }
    }
  }

  lemma StepDated(w: R.World, action: R.Action, w': R.World, eventID: string, start: int)
    requires R.Step(w, action, w') && !action.Enqueue? && AllDated(w.records, eventID, start) && start <= w.now
    requires AcksDated(w, eventID, start)
    ensures AllDated(w'.records, eventID, start)
  {
    hide RetryDelay, EnqueueStep;
  }

  lemma StepDatesAcks(w: R.World, action: R.Action, w': R.World, eventID: string, start: int)
    requires R.Step(w, action, w') && AcksDated(w, eventID, start) && start <= w.now
    ensures AcksDated(w', eventID, start)
  {
    hide EnqueueStep, Swept, AckIn, AckThroughIn, MarkSentIn, MarkFailedIn;
  }

  /** The part of gentleness that is not about time. */
  predicate Roomy(s: Setting, w: World, action: Action) {
    match action
    case Visit(record, outcome) => Calls(s, w) && outcome.Some? && NeedsRoom(w.Records(), record, w.Now()) ==>
      OldersFirst(Swept(w.Records(), w.Now()), s.message.id)
    case Environment(step) => RoomyStep(s, w, step)
    case _ => true
  }

  predicate RoomyStep(s: Setting, w: World, step: R.Action) {
    match step
    case Enqueue(r, _) => r.eventID != s.message.id
                          && (NeedsRoom(w.Records(), r, w.Now()) ==>
                                OldersFirst(Swept(w.Records(), w.Now()), s.message.id))
    case Revoke(i) => forall j | 0 <= j < |s.registrations| :: s.registrations[j].installationID != i
    case _ => true
  }

  lemma RoomyIsGentle(s: Setting, w: World, action: Action)
    requires Roomy(s, w, action) && Retained(w.Records(), s.message.id, w.Now())
    ensures Gentle(s, w, action)
  {
    hide Retained, NeedsRoom, OldersFirst, Swept, Calls;
  }

  ghost predicate Follows(s: Setting, w: World, start: int) {
    && R.Sound(w.delivery) && AllDated(w.Records(), s.message.id, start) && start <= w.Now()
    && AcksDated(w.delivery, s.message.id, start)
  }

  lemma StepFollows(s: Setting, w: World, action: Action, w': World, start: int)
    requires Follows(s, w, start) && Step(s, w, action, w') && Roomy(s, w, action)
    ensures Follows(s, w', start)
  {
    R.UsedIds(w.delivery);
    hide R.Sound, R.Step, AllDated, AcksDated, Valid, EnqueueStep, NeedsRoom, OldersFirst, Swept, Calls, BeginStep;
    hide FinishStep;
    match action {
      case Visit(record, outcome) =>
        if Calls(s, w) && outcome.Some? {
          R.StepKeepsSound(w.delivery, R.Enqueue(record, outcome.value), w'.delivery);
          R.TimePasses(w.delivery, R.Enqueue(record, outcome.value), w'.delivery);
          EnqueueIs(w.delivery, record, outcome.value, w'.delivery);
          EnqueueDated(w.Records(), record, w.Now(), w'.Records(), outcome.value, s.message.id, start);
          StepDatesAcks(w.delivery, R.Enqueue(record, outcome.value), w'.delivery, s.message.id, start);
        }
      case Environment(step) =>
        R.StepKeepsSound(w.delivery, step, w'.delivery);
        R.TimePasses(w.delivery, step, w'.delivery);
        StepDatesAcks(w.delivery, step, w'.delivery, s.message.id, start);
        if step.Enqueue? {
          EnqueueIs(w.delivery, step.record, step.outcome, w'.delivery);
          EnqueueDated(w.Records(), step.record, w.Now(), w'.Records(), step.outcome, s.message.id, start);
        } else {
          StepDated(w.delivery, step, w'.delivery, s.message.id, start);
        }
      case _ => SameDelivery(s, w, action, w');
    }
  }

  lemma SameDelivery(s: Setting, w: World, action: Action, w': World)
    requires Step(s, w, action, w') && (action.Begin? || action.Finish?)
    ensures w'.delivery == w.delivery
  {
  }

  /** Steps of an attempt and its environment, with room, that all happen within seven days of the first; no flush is
      about to acknowledge an earlier send of the message. */
  ghost predicate WithinAWeek(s: Setting, worlds: seq<World>, actions: seq<Action>) {
    && |worlds| == |actions| + 1 && R.Sound(worlds[0].delivery) && Fresh(s, worlds[0])
    && AcksDated(worlds[0].delivery, s.message.id, worlds[0].Now())
    && (forall i | 0 <= i < |actions| :: Step(s, worlds[i], actions[i], worlds[i + 1]))
    && (forall i | 0 <= i < |actions| :: Roomy(s, worlds[i], actions[i]))
    && (forall i | 0 <= i < |actions| :: worlds[i].Now() - worlds[0].Now() <= RETENTION)
  }

  lemma {:induction false} WeekFollows(s: Setting, worlds: seq<World>, actions: seq<Action>, n: nat)
    requires WithinAWeek(s, worlds, actions) && n <= |actions|
    ensures Follows(s, worlds[n], worlds[0].Now())
  {
    hide Step, Roomy, R.Sound;
    if n > 0 {
      hide Follows;
      WeekFollows(s, worlds, actions, n - 1);
      StepFollows(s, worlds[n - 1], actions[n - 1], worlds[n], worlds[0].Now());
    }
  }

  /** Then retention need not be asked for: within seven days of the first attempt no clean-up removes a record of the
      message. */
  lemma WeekIsARun(s: Setting, worlds: seq<World>, actions: seq<Action>)
    requires WithinAWeek(s, worlds, actions)
    ensures IsRun(s, worlds, actions)
  {
    hide Step, Roomy, R.Sound, Gentle;
    forall i | 0 <= i < |actions| ensures Gentle(s, worlds[i], actions[i]) {
      WeekFollows(s, worlds, actions, i);
      DatedIsRetained(worlds[i].Records(), s.message.id, worlds[0].Now(), worlds[i].Now());
      RoomyIsGentle(s, worlds[i], actions[i]);
    }
  }

  // ---------------------------------------------------------------- after seven days

  /** A message for two devices, "a" and "b". */
  predicate TwoDevices(s: Setting) {
    && s.message.id == "m" && s.message.kind == OtherEvent && s.message.channelID == ""
    && |s.registrations| == 2 && s.registrations[0].installationID == "a"
    && forall j | 0 <= j < 2 :: s.message.concerns(s.registrations[j], false, false)
  }

  const LATER := RETENTION + 2

  function FirstRecord(): Record { Record("1", "m", "a", "", Pending, 0, 1, 1 + DAY, 1, 0, 0, "") }
  function SecondRecord(): Record { Record("2", "m", "a", "", Pending, 0, LATER, LATER + DAY, LATER, 0, 0, "") }

  lemma OldIsSwept()
    ensures Swept(map["1" := FirstRecord()], LATER) == map[]
  {
  }

  function At(s: Setting, delivery: R.World, attempt: Option<Attempt>, created: map<string, nat>): World {
    World(delivery, s.channels, attempt, created, None)
  }

  lemma AlwaysCalls(s: Setting, w: World, begun: int, next: nat)
    requires TwoDevices(s) && next < 2 && w.attempt.Some? && w.attempt.value.next == next
    requires !w.attempt.value.titleChanged && !w.attempt.value.gameChanged
    ensures Calls(s, w)
  {
    assert TrimSpace("") == "";
  }

  /** A visit of device "a" that finds an empty table after clean-up. */
  lemma CreatesRecord(s: Setting, w: World, r: Record) returns (w': World)
    requires TwoDevices(s) && w.attempt == Some(Attempt(0, false, false, false, w.Now()))
    requires Swept(w.Records(), w.Now()) == map[] && r.id !in w.delivery.used && r.id != "" && KeyOf(r) == Key("a", "m")
    requires r.status == Pending && r.attemptCount == 0 && Announces(r, w.Now()) && Prepared(r, w.Now()) == r
    ensures Step(s, w, Visit(r, Some(Ok(Enqueued(r, true)))), w')
    ensures w' == w.(delivery := w.delivery.(records := map[r.id := r], used := w.delivery.used + {r.id}),
                     attempt := Some(Attempt(1, false, false, false, w.Now())), created := CountOne(w.created, "a"))
  {
    AlwaysCalls(s, w, w.Now(), 0);
    assert "m"[0] == 'm' && "a"[0] == 'a';
    IntoEmpty(w.Records(), r, w.Now());
    hide EnqueueStep, Swept, Calls, CountOne;
    w' := w.(delivery := w.delivery.(records := map[r.id := r], used := w.delivery.used + {r.id}),
             attempt := Some(Attempt(1, false, false, false, w.Now())), created := CountOne(w.created, "a"));
  }

  /** The first attempt reaches device "a" and fails for device "b"; then more than seven days pass. */
  lemma FirstAttempt(s: Setting) returns (w: World)
    requires TwoDevices(s)
    ensures Reaches(s, At(s, R.START, None, map[]), w)
    ensures w.attempt == None && w.created == CountOne(map[], "a") && w.delivery.used == {"1"} && w.Now() == LATER
    ensures w.Records() == map["1" := FirstRecord()]
  {
    hide Reaches, Swept, Calls, CountOne;
    var w0 := At(s, R.START, None, map[]);
    var w1 := At(s, R.START, Some(Attempt(0, false, false, false, 1)), map[]);
    OneStep(s, w0, Begin(true), w1);
    assert Swept(map[], 1) == map[] by { NothingSwept(1); }
    var w2 := CreatesRecord(s, w1, FirstRecord());
    OneStep(s, w1, Visit(FirstRecord(), Some(Ok(Enqueued(FirstRecord(), true)))), w2);
    var w3 := w2.(attempt := Some(Attempt(2, false, false, true, 1)));
    AlwaysCalls(s, w2, 1, 1);
    OneStep(s, w2, Visit(FirstRecord(), None), w3);
    var w4 := w3.(attempt := None);
    OneStep(s, w3, Finish(true), w4);
    w := w4.(delivery := w4.delivery.(now := LATER));
    OneStep(s, w4, Environment(R.Wait(LATER)), w);
    hide Step;
    Onwards(s, w0, w1, w2);
    Onwards(s, w0, w2, w3);
    Onwards(s, w0, w3, w4);
    Onwards(s, w0, w4, w);
  }

  /** Repeated after more than seven days, the message creates a second record for a device that had one. */
  lemma CreatedTwice(s: Setting) returns (start: World, last: World)
    requires TwoDevices(s)
    ensures R.Sound(start.delivery) && Fresh(s, start) && Reaches(s, start, last)
    ensures "a" in last.created && last.created["a"] == 2
  {
    start := At(s, R.START, None, map[]);
    var w5 := FirstAttempt(s);
    hide Reaches, Swept, Calls;
    var w6 := w5.(attempt := Some(Attempt(0, false, false, false, LATER)));
    OneStep(s, w5, Begin(true), w6);
    OldIsSwept();
    last := CreatesRecord(s, w6, SecondRecord());
    OneStep(s, w6, Visit(SecondRecord(), Some(Ok(Enqueued(SecondRecord(), true)))), last);
    hide Step;
    Onwards(s, start, w5, w6);
    Onwards(s, start, w6, last);
  }
}
