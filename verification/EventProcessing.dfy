/** Processing one EventSub message through failures and repetitions: every matching device gets one delivery. */
module EventProcessing {
  import opened Durations
  import opened Wrappers
  import opened Registrations
  import opened Delivery
  import opened DeliveryStore
  import opened Sparing
  import R = DeliveryRuns

  /** What a channel update is compared with. */
  datatype ChannelState = ChannelState(title: string, category: string)

  type Channels = map<string, ChannelState>

  datatype Kind = ChannelUpdate(channelID: string, state: ChannelState) | OtherEvent

  /** `concerns` says whether a device that has not muted the channel is notified, given what has changed. */
  datatype Message = Message(id: string, kind: Kind, channelID: string, concerns: (Registration, bool, bool) -> bool)

  /** A message, the registered devices and the channel states before its first attempt. */
  datatype Setting = Setting(message: Message, registrations: seq<Registration>, channels: Channels)

  // ---------------------------------------------------------------- what one clean run does

  predicate Routes(m: Message, r: Registration, titleChanged: bool, gameChanged: bool, now: int) {
    !Muted(r, m.channelID, now) && m.concerns(r, titleChanged, gameChanged)
  }

  predicate TitleChanged(kind: Kind, channels: Channels) {
    kind.ChannelUpdate? && kind.channelID in channels && channels[kind.channelID].title != kind.state.title
  }

  predicate GameChanged(kind: Kind, channels: Channels) {
    kind.ChannelUpdate? && kind.channelID in channels && channels[kind.channelID].category != kind.state.category
  }

  /** Updates without news and the first state of a channel notify nobody. */
  predicate Delivers(kind: Kind, channels: Channels) {
    kind.OtherEvent? || (kind.channelID != "" && (TitleChanged(kind, channels) || GameChanged(kind, channels)))
  }

  function ChannelsAfter(kind: Kind, channels: Channels): Channels {
    if kind.OtherEvent? || kind.channelID == "" then channels else channels[kind.channelID := kind.state]
  }

  predicate Routed(s: Setting, j: nat, now: int)
    requires j < |s.registrations|
  {
    Routes(s.message, s.registrations[j], TitleChanged(s.message.kind, s.channels),
           GameChanged(s.message.kind, s.channels), now)
  }

  /** The devices a clean run at the given time delivers to. */
  predicate Matched(s: Setting, installationID: string, now: int) {
    Delivers(s.message.kind, s.channels)
    && exists j | 0 <= j < |s.registrations| :: s.registrations[j].installationID == installationID && Routed(s, j, now)
  }

  lemma RoutedGrows(s: Setting, j: nat, now: int, later: int)
    requires j < |s.registrations| && now <= later
    ensures Routed(s, j, now) ==> Routed(s, j, later)
  {
  }

  lemma MatchesGrow(s: Setting, installationID: string, now: int, later: int)
    requires now <= later && Matched(s, installationID, now)
    ensures Matched(s, installationID, later)
  {
  }

  predicate Has(records: Records, s: Setting, installationID: string) {
    HasKey(records, Key(installationID, s.message.id))
  }

  // ---------------------------------------------------------------- attempts as steps

  /** An attempt under way: the next registration to visit, what it found changed, whether anything failed, when it
      began. */
  datatype Attempt = Attempt(next: nat, titleChanged: bool, gameChanged: bool, failed: bool, begun: int)

  /** The deliveries with everything that goes on among them, and the state of this message: `created` counts the
      records created for each device, `completed` is when the last complete pass over the devices began. */
  datatype World = World(
    delivery: R.World, channels: Channels, attempt: Option<Attempt>, created: map<string, nat>, completed: Option<int>)
  {
    function Records(): Records { delivery.records }
    function Now(): int { delivery.now }
  }

  /** `None` stands for a storage call that failed without effect. The environment takes any step of `DeliveryRuns`:
      flushes, acknowledgements, clean-ups, revocations, other messages, the passing of time. */
  datatype Action =
    | Begin(saved: bool)
    | Visit(record: Record, outcome: Option<Result<Enqueued, StoreError>>)
    | Finish(saved: bool)
    | Environment(step: R.Action)

  function Succeeded(w: World, begun: int): World {
    w.(attempt := None, completed := Some(begun))
  }

  /** Starting an attempt: updates are compared with the stored state first. */
  function BeginStep(s: Setting, w: World, saved: bool): World {
    var kind := s.message.kind;
    if kind.OtherEvent? then w.(attempt := Some(Attempt(0, false, false, false, w.Now())))
    else if kind.channelID == "" then w
    else if kind.channelID !in w.channels then
      if saved then Succeeded(w.(channels := w.channels[kind.channelID := kind.state]), w.Now()) else w
    else if !TitleChanged(kind, w.channels) && !GameChanged(kind, w.channels) then
      w.(completed := if w.completed.Some? then w.completed else Some(w.Now()))
    else w.(attempt := Some(Attempt(0, TitleChanged(kind, w.channels), GameChanged(kind, w.channels), false, w.Now())))
  }

  /** The next registration is one the message routes to, so the store is called. */
  predicate Calls(s: Setting, w: World) {
    && w.attempt.Some? && w.attempt.value.next < |s.registrations|
    && var a := w.attempt.value; Routes(s.message, s.registrations[a.next], a.titleChanged, a.gameChanged, w.Now())
  }

  /** A notification can be sent at once, and for half an hour, two hours or a day. */
  predicate Announces(record: Record, now: int) {
    && record.createdAt == now && record.availableAt == now
    && (record.expiresAt == now + 30 * MINUTE || record.expiresAt == now + 2 * HOUR || record.expiresAt == now + DAY)
  }

  ghost predicate VisitStep(s: Setting, w: World, record: Record, outcome: Option<Result<Enqueued, StoreError>>,
                            w': World) {
    && w.attempt.Some? && w.attempt.value.next < |s.registrations|
    && var a := w.attempt.value;
       var r := s.registrations[a.next];
       if !Calls(s, w) then w' == w.(attempt := Some(a.(next := a.next + 1)))
       else
         match outcome
         case None => w' == w.(attempt := Some(a.(next := a.next + 1, failed := true)))
         case Some(result) =>
           && KeyOf(record) == Key(r.installationID, s.message.id) && Announces(record, w.Now())
           && R.Step(w.delivery, R.Enqueue(record, result), w'.delivery)
           && w' == w.(delivery := w'.delivery,
                       attempt := Some(a.(next := a.next + 1, failed := a.failed || result.Err?)),
                       created := if result.Ok? && result.value.created then CountOne(w.created, r.installationID)
                                  else w.created)
  }

  function CountOne(created: map<string, nat>, installationID: string): map<string, nat> {
    created[installationID := (if installationID in created then created[installationID] else 0) + 1]
  }

  /** The channel state is saved after the last device, and only if nothing failed. */
  function FinishStep(s: Setting, w: World, saved: bool): World
    requires w.attempt.Some?
  {
    var kind := s.message.kind;
    if w.attempt.value.failed then w.(attempt := None)
    else if kind.OtherEvent? then Succeeded(w, w.attempt.value.begun)
    else if saved then Succeeded(w.(channels := w.channels[kind.channelID := kind.state]), w.attempt.value.begun)
    else w.(attempt := None)
  }

  ghost predicate Step(s: Setting, w: World, action: Action, w': World) {
    match action
    case Begin(saved) => w.attempt.None? && w' == BeginStep(s, w, saved)
    case Visit(record, outcome) => VisitStep(s, w, record, outcome, w')
    case Finish(saved) => w.attempt.Some? && w.attempt.value.next == |s.registrations| && w' == FinishStep(s, w, saved)
    case Environment(step) => R.Step(w.delivery, step, w'.delivery) && w' == w.(delivery := w'.delivery)
  }

  /** What is asked of a step: enqueueing, for this or another message, spares the message's records, a clean-up finds
      them within retention, and no registered device is revoked. */
  predicate Gentle(s: Setting, w: World, action: Action) {
    match action
    case Visit(record, outcome) => Calls(s, w) && outcome.Some? ==> Spared(w.Records(), s.message.id, record, w.Now())
    case Environment(step) => GentleStep(s, w, step)
    case _ => true
  }

  predicate GentleStep(s: Setting, w: World, step: R.Action) {
    match step
    case Enqueue(r, _) => r.eventID != s.message.id && Spared(w.Records(), s.message.id, r, w.Now())
    case CleanUp => Retained(w.Records(), s.message.id, w.Now())
    case Revoke(i) => forall j | 0 <= j < |s.registrations| :: s.registrations[j].installationID != i
    case _ => true
  }

  // ---------------------------------------------------------------- the invariant

  /** The message has a record for a device exactly if it created one, and it created only one, for a device that
      matches. */
  ghost predicate CreatedSound(s: Setting, w: World) {
    && (forall i | i in w.created :: w.created[i] == 1 && Has(w.Records(), s, i) && Matched(s, i, w.Now()))
    && (forall i | Has(w.Records(), s, i) :: i in w.created)
  }

  /** Every device the message already matched at the given time, among the first ones, has its record. */
  ghost predicate Served(s: Setting, w: World, count: nat, time: int) {
    count <= |s.registrations| && forall j | 0 <= j < count && Routed(s, j, time) ::
      Has(w.Records(), s, s.registrations[j].installationID)
  }

  ghost predicate AttemptSound(s: Setting, w: World) {
    w.attempt.Some? ==>
      var a := w.attempt.value;
      && Delivers(s.message.kind, s.channels) && w.channels == s.channels && a.begun <= w.Now()
         && a.next <= |s.registrations|
      && a.titleChanged == TitleChanged(s.message.kind, s.channels)
         && a.gameChanged == GameChanged(s.message.kind, s.channels)
      && (!a.failed ==> Served(s, w, a.next, a.begun))
  }

  ghost predicate CompletionSound(s: Setting, w: World) {
    if w.completed.None? then w.channels == s.channels
    else
      && w.completed.value <= w.Now() && w.channels == ChannelsAfter(s.message.kind, s.channels)
      && (Delivers(s.message.kind, s.channels) ==> Served(s, w, |s.registrations|, w.completed.value))
  }

  ghost predicate Sound(s: Setting, w: World) {
    R.Sound(w.delivery) && CreatedSound(s, w) && AttemptSound(s, w) && CompletionSound(s, w)
  }

  lemma KeptHas(before: Records, after: Records, s: Setting, installationID: string)
    requires Kept(before, after, s.message.id) && Has(before, s, installationID)
    ensures Has(after, s, installationID)
  {
  }

  lemma KeptServed(s: Setting, w: World, w': World, count: nat, time: int)
    requires Kept(w.Records(), w'.Records(), s.message.id) && Served(s, w, count, time)
    ensures Served(s, w', count, time)
  {
  }

  /** The message's records are the same, for the same devices. */
  predicate Undisturbed(before: Records, after: Records, eventID: string) {
    Kept(before, after, eventID) && Kept(after, before, eventID)
  }

  lemma OtherMessageSpares(before: Records, eventID: string, r: Record, now: int, after: Records,
                           outcome: Result<Enqueued, StoreError>)
    requires Valid(before) && Spared(before, eventID, r, now) && r.id !in before && r.eventID != eventID
    requires EnqueueStep(before, r, now, after, outcome)
    ensures Undisturbed(before, after, eventID)
  {
    hide Valid, EnqueueStep, Spared;
    EnqueueSpares(before, eventID, r, now, after, outcome);
    assert forall id | id in after && id != r.id :: id in after - {r.id};
  }

  lemma CleanUpSpares(records: Records, eventID: string, now: int)
    requires Retained(records, eventID, now)
    ensures Undisturbed(records, Swept(records, now), eventID)
  {
    SweptOwn(records, eventID, now);
  }

  lemma UpdatesSpare(before: Records, after: Records, eventID: string)
    requires after.Keys == before.Keys && forall id | id in before :: SameIdentity(after[id], before[id])
    ensures Undisturbed(before, after, eventID)
  {
  }

  /** Only registered devices have a record of the message. */
  lemma RevocationSpares(s: Setting, w: World, installationID: string)
    requires CreatedSound(s, w) && GentleStep(s, w, R.Revoke(installationID))
    ensures Undisturbed(w.Records(), WithoutInstallation(w.Records(), installationID), s.message.id)
  {
    hide Routed, Delivers;
    forall id | id in w.Records()
                && w.Records()[id].eventID == s.message.id ensures w.Records()[id].installationID != installationID {
      var i := w.Records()[id].installationID;
      assert KeyOf(w.Records()[id]) == Key(i, s.message.id);
      assert Has(w.Records(), s, i);
      assert Matched(s, i, w.Now());
    }
  }

  /** No step of the environment touches the message's records. */
  lemma EnvironmentSpares(s: Setting, w: World, step: R.Action, w': World)
    requires Sound(s, w) && Step(s, w, Environment(step), w') && GentleStep(s, w, step)
    ensures Undisturbed(w.Records(), w'.Records(), s.message.id) && w.Now() <= w'.Now()
  {
    R.UsedIds(w.delivery);
    R.TimePasses(w.delivery, step, w'.delivery);
    hide Undisturbed, CreatedSound, AttemptSound, CompletionSound, Spared, Retained, Swept, EnqueueStep, Valid;
    hide WithoutInstallation;
    hide R.CountsSound, R.BatchesSound;
    match step {
      case Enqueue(r, outcome) => OtherMessageSpares(w.Records(), s.message.id, r, w.Now(), w'.Records(), outcome);
      case CleanUp => CleanUpSpares(w.Records(), s.message.id, w.Now());
      case Revoke(i) => RevocationSpares(s, w, i);
      case _ =>
        R.ChangesKeepLive(w.delivery, step, w'.delivery);
        UpdatesSpare(w.Records(), w'.Records(), s.message.id);
    }
  }

  lemma UndisturbedKeeps(s: Setting, w: World, w': World)
    requires CreatedSound(s, w) && AttemptSound(s, w) && CompletionSound(s, w)
    requires Undisturbed(w.Records(), w'.Records(), s.message.id) && w.Now() <= w'.Now()
    requires w' == w.(delivery := w'.delivery)
    ensures CreatedSound(s, w') && AttemptSound(s, w') && CompletionSound(s, w')
  {
    hide Delivers, Kept, Matched, Routed;
    forall i | i in w'.created ensures Has(w'.Records(), s, i) && Matched(s, i, w'.Now()) {
      KeptHas(w.Records(), w'.Records(), s, i);
      MatchesGrow(s, i, w.Now(), w'.Now());
    }
    forall i | Has(w'.Records(), s, i) ensures i in w'.created {
      KeptHas(w'.Records(), w.Records(), s, i);
    }
    hide Has;
    if w.attempt.Some? && !w.attempt.value.failed {
      KeptServed(s, w, w', w.attempt.value.next, w.attempt.value.begun);
    }
    if w.completed.Some? && Delivers(s.message.kind, s.channels) {
      KeptServed(s, w, w', |s.registrations|, w.completed.value);
    }
  }

  lemma EnvironmentKeeps(s: Setting, w: World, step: R.Action, w': World)
    requires Sound(s, w) && Step(s, w, Environment(step), w') && GentleStep(s, w, step)
    ensures Sound(s, w')
  {
    EnvironmentSpares(s, w, step, w');
    hide R.Step, R.Sound, Undisturbed, CreatedSound, AttemptSound, CompletionSound, GentleStep;
    R.StepKeepsSound(w.delivery, step, w'.delivery);
    UndisturbedKeeps(s, w, w');
  }

  lemma BeginKeeps(s: Setting, w: World, saved: bool, w': World)
    requires Sound(s, w) && Step(s, w, Begin(saved), w')
    ensures Sound(s, w')
  {
    hide R.Sound, Has, Matched, Routed;
  }

  lemma FinishKeeps(s: Setting, w: World, saved: bool, w': World)
    requires Sound(s, w) && Step(s, w, Finish(saved), w')
    ensures Sound(s, w')
  {
    hide R.Sound, Has, Matched, Routed;
  }

  lemma CreationKeeps(s: Setting, w: World, j: nat, record: Record, result: Result<Enqueued, StoreError>, w': World)
    requires CreatedSound(s, w) && j < |s.registrations| && Routed(s, j, w.Now())
    requires Delivers(s.message.kind, s.channels)
    requires KeyOf(record) == Key(s.registrations[j].installationID, s.message.id) && record.id !in w.Records()
    requires OwnChange(w.Records(), record, w'.Records(), result) && w'.Now() == w.Now()
    requires w'.created ==
      if result.Ok? && result.value.created then CountOne(w.created, s.registrations[j].installationID) else w.created
    ensures CreatedSound(s, w')
  {
  }

  lemma VisitServes(s: Setting, w: World, record: Record, result: Result<Enqueued, StoreError>, w': World)
    requires AttemptSound(s, w) && CompletionSound(s, w) && w.attempt.Some? && w.attempt.value.next < |s.registrations|
    requires KeyOf(record) == Key(s.registrations[w.attempt.value.next].installationID, s.message.id)
    requires OwnChange(w.Records(), record, w'.Records(), result) && w'.Now() == w.Now()
    requires var a := w.attempt.value;
      && w'.attempt == Some(a.(next := a.next + 1, failed := a.failed || result.Err?))
      && w'.channels == w.channels && w'.completed == w.completed
    ensures AttemptSound(s, w') && CompletionSound(s, w')
  {
    hide Routed, Delivers, TitleChanged, GameChanged, HasKey, Kept, ChannelsAfter;
    var a := w.attempt.value;
    if !a.failed {
      KeptServed(s, w, w', a.next, a.begun);
    }
    if w.completed.Some? && Delivers(s.message.kind, s.channels) {
      KeptServed(s, w, w', |s.registrations|, w.completed.value);
    }
  }

  lemma CallMeans(s: Setting, w: World)
    requires AttemptSound(s, w) && w.attempt.Some? && w.attempt.value.next < |s.registrations|
    ensures var next := w.attempt.value.next;
      && (Calls(s, w) <==> Routed(s, next, w.Now())) && Delivers(s.message.kind, s.channels)
      && (Routed(s, next, w.attempt.value.begun) ==> Calls(s, w))
  {
    RoutedGrows(s, w.attempt.value.next, w.attempt.value.begun, w.Now());
  }

  lemma CallIs(s: Setting, w: World, record: Record, result: Result<Enqueued, StoreError>, w': World)
    requires Step(s, w, Visit(record, Some(result)), w') && Calls(s, w)
    ensures w.attempt.Some? && w.attempt.value.next < |s.registrations|
    ensures KeyOf(record) == Key(s.registrations[w.attempt.value.next].installationID, s.message.id)
    ensures R.Step(w.delivery, R.Enqueue(record, result), w'.delivery)
    ensures var a := w.attempt.value;
      w'.attempt == Some(a.(next := a.next + 1, failed := a.failed || result.Err?))
    ensures w'.channels == w.channels && w'.completed == w.completed
    ensures w'.created ==
      if result.Ok? && result.value.created
      then CountOne(w.created, s.registrations[w.attempt.value.next].installationID) else w.created
  {
    hide Calls, R.Step, CountOne;
  }

  lemma EnqueueIs(d: R.World, record: Record, result: Result<Enqueued, StoreError>, d': R.World)
    requires R.Step(d, R.Enqueue(record, result), d')
    ensures record.id !in d.used && EnqueueStep(d.records, record, d.now, d'.records, result) && d'.now == d.now
    ensures record.status == Pending
  {
    hide EnqueueStep;
  }

  /** The store is called and answers. */
  lemma CallKeeps(s: Setting, w: World, record: Record, result: Result<Enqueued, StoreError>, w': World)
    requires Sound(s, w) && Step(s, w, Visit(record, Some(result)), w') && Calls(s, w)
    requires Spared(w.Records(), s.message.id, record, w.Now())
    ensures Sound(s, w')
  {
    R.UsedIds(w.delivery);
    hide Step, R.Step, R.Sound, CreatedSound, AttemptSound, CompletionSound, Valid, EnqueueStep, Spared, CountOne;
    hide Calls, Routed, Delivers, OwnChange;
    CallIs(s, w, record, result, w');
    CallMeans(s, w);
    R.StepKeepsSound(w.delivery, R.Enqueue(record, result), w'.delivery);
    EnqueueIs(w.delivery, record, result, w'.delivery);
    EnqueueOwn(w.Records(), record, w.Now(), w'.Records(), result);
    CreationKeeps(s, w, w.attempt.value.next, record, result, w');
    VisitServes(s, w, record, result, w');
  }

  /** No call, or one that has failed without effect. */
  lemma SkipKeeps(s: Setting, w: World, record: Record, outcome: Option<Result<Enqueued, StoreError>>, w': World)
    requires Sound(s, w) && Step(s, w, Visit(record, outcome), w') && (!Calls(s, w) || outcome.None?)
    ensures Sound(s, w')
  {
    CallMeans(s, w);
    hide R.Sound, CreatedSound, CompletionSound, AttemptSound, Calls, Routed, Delivers, Has, R.Step;
    SameRecordsKeep(s, w, w');
    PassedOver(s, w, w');
  }

  /** The next device was called without an answer, or is not to be told. */
  lemma PassedOver(s: Setting, w: World, w': World)
    requires AttemptSound(s, w) && w.attempt.Some? && w.attempt.value.next < |s.registrations|
    requires w'.delivery == w.delivery && w'.channels == w.channels
    requires var a := w.attempt.value;
      || w'.attempt == Some(a.(next := a.next + 1, failed := true))
      || (w'.attempt == Some(a.(next := a.next + 1)) && !Routed(s, a.next, a.begun))
    ensures AttemptSound(s, w')
  {
    hide Routed, Delivers, Has, TitleChanged, GameChanged;
  }

  lemma VisitKeeps(s: Setting, w: World, record: Record, outcome: Option<Result<Enqueued, StoreError>>, w': World)
    requires Sound(s, w) && Step(s, w, Visit(record, outcome), w') && Gentle(s, w, Visit(record, outcome))
    ensures Sound(s, w')
  {
    hide Step, Sound, Calls, Spared;
    if Calls(s, w) && outcome.Some? {
      CallKeeps(s, w, record, outcome.value, w');
    } else {
      SkipKeeps(s, w, record, outcome, w');
    }
  }

  lemma SameRecordsKeep(s: Setting, w: World, w': World)
    requires CreatedSound(s, w) && CompletionSound(s, w)
    requires w'.delivery == w.delivery && w'.created == w.created && w'.completed == w.completed
    requires w'.channels == w.channels
    ensures CreatedSound(s, w') && CompletionSound(s, w')
  {
  }

  // ---------------------------------------------------------------- runs

  /** The first attempt finds nothing of the message in the store. */
  ghost predicate Fresh(s: Setting, w: World) {
    && (forall id | id in w.Records() :: w.Records()[id].eventID != s.message.id)
    && w.channels == s.channels && w.attempt.None? && w.created == map[] && w.completed.None?
  }

  ghost predicate IsRun(s: Setting, worlds: seq<World>, actions: seq<Action>) {
    && |worlds| == |actions| + 1 && R.Sound(worlds[0].delivery) && Fresh(s, worlds[0])
    && (forall i | 0 <= i < |actions| :: Step(s, worlds[i], actions[i], worlds[i + 1]))
    && (forall i | 0 <= i < |actions| :: Gentle(s, worlds[i], actions[i]))
  }

  ghost predicate Leads(s: Setting, w: World, worlds: seq<World>, actions: seq<Action>, w': World) {
    && |worlds| == |actions| + 1 && worlds[0] == w && worlds[|actions|] == w'
    && forall i | 0 <= i < |actions| :: Step(s, worlds[i], actions[i], worlds[i + 1])
  }

  /** Some steps of the attempt and of its environment lead from one state to the other. */
  ghost predicate Reaches(s: Setting, w: World, w': World) {
    exists worlds, actions :: Leads(s, w, worlds, actions, w')
  }

  lemma ReachesItself(s: Setting, w: World)
    ensures Reaches(s, w, w)
  {
    assert Leads(s, w, [w], [], w);
  }

  lemma OneStep(s: Setting, w: World, action: Action, w': World)
    requires Step(s, w, action, w')
    ensures Reaches(s, w, w')
  {
    hide Step;
    assert Leads(s, w, [w, w'], [action], w');
  }

  lemma Onwards(s: Setting, a: World, b: World, c: World)
    requires Reaches(s, a, b) && Reaches(s, b, c)
    ensures Reaches(s, a, c)
  {
    hide Step;
    var worlds, actions :| Leads(s, a, worlds, actions, b);
    var more, others :| Leads(s, b, more, others, c);
    var all, steps := worlds + more[1..], actions + others;
    forall n | 0 <= n < |steps| ensures Step(s, all[n], steps[n], all[n + 1]) {
      if n < |actions| {
        assert all[n] == worlds[n] && all[n + 1] == worlds[n + 1] && steps[n] == actions[n];
      } else {
        var m := n - |actions|;
        assert all[n] == more[m] && all[n + 1] == more[m + 1] && steps[n] == others[m];
      }
    }
    assert Leads(s, a, all, steps, c);
  }

  lemma {:induction false} ReachableIsSound(s: Setting, worlds: seq<World>, actions: seq<Action>, n: nat)
    requires IsRun(s, worlds, actions) && n <= |actions|
    ensures Sound(s, worlds[n])
  {
    hide Step, Gentle, R.Sound;
    if n > 0 {
      hide Sound;
      ReachableIsSound(s, worlds, actions, n - 1);
      match actions[n - 1] {
        case Begin(saved) => BeginKeeps(s, worlds[n - 1], saved, worlds[n]);
        case Visit(record, outcome) => VisitKeeps(s, worlds[n - 1], record, outcome, worlds[n]);
        case Finish(saved) => FinishKeeps(s, worlds[n - 1], saved, worlds[n]);
        case Environment(step) =>
          GentleEnvironment(s, worlds[n - 1], step);
          EnvironmentKeeps(s, worlds[n - 1], step, worlds[n]);
      }
    }
  }

  lemma GentleEnvironment(s: Setting, w: World, step: R.Action)
    requires Gentle(s, w, Environment(step))
    ensures GentleStep(s, w, step)
  {
  }

  /** However many attempts fail, in part or altogether, and however often the message comes again after a success:
      no device ever gets a second record, the channel state is untouched until an attempt succeeds, and from then on
      it is the new one and exactly the matching devices have a record. */
  lemma ExactlyOnce(s: Setting, worlds: seq<World>, actions: seq<Action>, n: nat, installationID: string)
    requires IsRun(s, worlds, actions) && n <= |actions|
    ensures var w := worlds[n];
      && (installationID in w.created ==> w.created[installationID] == 1)
      && (Has(w.Records(), s, installationID) <==> installationID in w.created)
      && (Has(w.Records(), s, installationID) ==> Matched(s, installationID, w.Now()))
      && w.channels == (if w.completed.Some? then ChannelsAfter(s.message.kind, s.channels) else s.channels)
      && (w.completed.Some? && Matched(s, installationID, w.completed.value) ==> Has(w.Records(), s, installationID))
      && (w.completed.Some? && (Matched(s, installationID, w.Now()) <==>
                                  Matched(s, installationID, w.completed.value)) ==>
           (Has(w.Records(), s, installationID) <==> Matched(s, installationID, w.Now())))
  {
    ReachableIsSound(s, worlds, actions, n);
    hide Step, R.Sound, Routed, Gentle;
    var w := worlds[n];
    if w.completed.Some? && Matched(s, installationID, w.completed.value) {
      var j :| 0 <= j < |s.registrations| && s.registrations[j].installationID == installationID
               && Routed(s, j, w.completed.value);
      assert Has(w.Records(), s, s.registrations[j].installationID);
    }
  }
}
