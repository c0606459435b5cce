/** Whom a message is announced to, and when: the records it creates can be sent at once and until they expire. */
module Notifications {
  import opened Durations
  import opened Text
  import opened Wrappers
  import opened Registrations
  import opened Delivery
  import opened DeliveryStore
  import opened DeliveryLives
  import opened EventProcessing
  import Flush
  import R = DeliveryRuns

  /** The step creates a record. */
  predicate Creates(s: Setting, w: World, action: Action) {
    && action.Visit? && Calls(s, w) && action.outcome.Some? && action.outcome.value.Ok?
    && action.outcome.value.value.created
  }

  /** The record is settled by what goes on among the deliveries. */
  predicate SettledBy(w: World, action: Action, id: string) {
    action.Environment? && Settles(w.delivery, action.step, id)
  }

  lemma EnqueuedIs(before: Records, r: Record, now: int, after: Records, outcome: Result<Enqueued, StoreError>)
    requires EnqueueStep(before, r, now, after, outcome) && outcome.Ok? && outcome.value.created
    ensures r.id in after && after[r.id] == Prepared(r, now)
  {
  }

  /** A record is due for its device from when it is created until it expires, half an hour later at the earliest. */
  lemma CreatedIsDue(s: Setting, w: World, action: Action, w': World, later: int)
    requires Step(s, w, action, w') && Creates(s, w, action)
    requires w.Now() <= later < action.record.expiresAt
    ensures action.record.expiresAt >= w.Now() + 30 * MINUTE
    ensures var device := s.registrations[w.attempt.value.next].installationID;
      && action.record.id in w'.Records() && KeyOf(w'.Records()[action.record.id]) == Key(device, s.message.id)
      && Flush.Due(w'.Records()[action.record.id], device, later)
  {
    var result := action.outcome.value;
    CallIs(s, w, action.record, result, w');
    EnqueueIs(w.delivery, action.record, result, w'.delivery);
    EnqueuedIs(w.Records(), action.record, w.Now(), w'.Records(), result);
    hide EnqueueStep, R.Step, Calls;
  }

  lemma StepLeaves(s: Setting, w: World, action: Action, w': World, id: string)
    requires R.Sound(w.delivery) && Step(s, w, action, w') && !SettledBy(w, action, id)
    requires id in w.Records() && Live(w.Records()[id], w'.Now())
    ensures id in w'.Records() && w'.Records()[id] == w.Records()[id] && w.Now() <= w'.Now()
  {
    hide R.Sound, R.Step, Calls, BeginStep, FinishStep, Settles;
    match action {
      case Visit(record, outcome) =>
        if Calls(s, w) && outcome.Some? {
          EnqueueSettlesNothing(w.delivery, record, outcome.value, id);
          UnsettledStays(w.delivery, R.Enqueue(record, outcome.value), w'.delivery, id);
          R.TimePasses(w.delivery, R.Enqueue(record, outcome.value), w'.delivery);
        }
      case Environment(step) =>
        UnsettledStays(w.delivery, step, w'.delivery, id);
        R.TimePasses(w.delivery, step, w'.delivery);
      case _ => SameDeliveries(s, w, action, w');
    }
  }

  lemma EnqueueSettlesNothing(w: R.World, r: Record, outcome: Result<Enqueued, StoreError>, id: string)
    ensures !Settles(w, R.Enqueue(r, outcome), id)
  {
  }

  lemma SameDeliveries(s: Setting, w: World, action: Action, w': World)
    requires Step(s, w, action, w') && (action.Begin? || action.Finish?)
    ensures w'.delivery == w.delivery
  {
  }

  lemma {:induction false} CreatedStays(s: Setting, worlds: seq<World>, actions: seq<Action>, n: nat, m: nat,
                                        id: string)
    requires IsRun(s, worlds, actions) && n <= m <= |actions| && id in worlds[n].Records()
    requires Live(worlds[n].Records()[id], worlds[m].Now())
    requires forall k | n <= k < m :: !SettledBy(worlds[k], actions[k], id)
    ensures id in worlds[m].Records() && worlds[m].Records()[id] == worlds[n].Records()[id]
    decreases m
  {
    hide Step, Gentle, R.Sound, CreatedSound, AttemptSound, CompletionSound, SettledBy, Fresh;
    if n < m {
      ReachableIsSound(s, worlds, actions, m - 1);
      StepMovesOn(s, worlds[m - 1], actions[m - 1], worlds[m]);
      CreatedStays(s, worlds, actions, n, m - 1, id);
      StepLeaves(s, worlds[m - 1], actions[m - 1], worlds[m], id);
    }
  }

  lemma StepMovesOn(s: Setting, w: World, action: Action, w': World)
    requires Step(s, w, action, w')
    ensures w.Now() <= w'.Now()
  {
    hide R.Step, Calls;
    match action {
      case Visit(record, outcome) =>
        if Calls(s, w) && outcome.Some? {
          R.TimePasses(w.delivery, R.Enqueue(record, outcome.value), w'.delivery);
        }
      case Environment(step) => R.TimePasses(w.delivery, step, w'.delivery);
      case _ =>
    }
  }

  /** In every run: a record that a message creates stays due for its device until it expires, half an hour later at
      the earliest, as long as nothing settles it; so every flush of the device in that time takes it up, unless it is
      full of earlier records. */
  lemma AnnouncedInTime(s: Setting, worlds: seq<World>, actions: seq<Action>, n: nat, m: nat)
    requires IsRun(s, worlds, actions) && n < m <= |actions| && Creates(s, worlds[n], actions[n])
    requires worlds[m].Now() < actions[n].record.expiresAt
    requires forall k | n < k < m :: !SettledBy(worlds[k], actions[k], actions[n].record.id)
    ensures actions[n].record.expiresAt >= worlds[n].Now() + 30 * MINUTE
    ensures var id, device := actions[n].record.id, s.registrations[worlds[n].attempt.value.next].installationID;
      && id in worlds[m].Records() && KeyOf(worlds[m].Records()[id]) == Key(device, s.message.id)
      && Flush.Due(worlds[m].Records()[id], device, worlds[m].Now())
      && Next(worlds[m].Records(), worlds[m].Records()[id], worlds[m].Now())
  {
    var id, now := actions[n].record.id, worlds[m].Now();
    hide Step, R.Sound, CreatedSound, AttemptSound, CompletionSound, SettledBy, Gentle, Fresh, Valid, Next, Creates;
    TimeMovesOn(s, worlds, actions, n, m);
    CreatedIsDue(s, worlds[n], actions[n], worlds[n + 1], now);
    CreatedStays(s, worlds, actions, n + 1, m, id);
    ReachableIsSound(s, worlds, actions, m);
    R.UsedIds(worlds[m].delivery);
    DueIsNext(worlds[m].Records(), id, now);
  }

  lemma {:induction false} TimeMovesOn(s: Setting, worlds: seq<World>, actions: seq<Action>, n: nat, m: nat)
    requires IsRun(s, worlds, actions) && n <= m <= |actions|
    ensures worlds[n].Now() <= worlds[m].Now()
    decreases m
  {
    hide Step, Gentle, R.Sound, Fresh;
    if n < m {
      TimeMovesOn(s, worlds, actions, n, m - 1);
      StepMovesOn(s, worlds[m - 1], actions[m - 1], worlds[m]);
    }
  }

  /** Only devices that the message concerns and that have not muted its channel get a record. */
  lemma CreatedIsWanted(s: Setting, worlds: seq<World>, actions: seq<Action>, n: nat)
    requires IsRun(s, worlds, actions) && n < |actions| && Creates(s, worlds[n], actions[n])
    ensures var r, channel := s.registrations[worlds[n].attempt.value.next], TrimSpace(s.message.channelID);
      && (channel != "" && channel in r.mutedUntil ==> r.mutedUntil[channel] * MILLISECOND <= worlds[n].Now())
      && s.message.concerns(r, TitleChanged(s.message.kind, s.channels), GameChanged(s.message.kind, s.channels))
  {
    hide Step, R.Sound, CreatedSound, CompletionSound, Gentle, Fresh, TrimSpace, TitleChanged, GameChanged;
    ReachableIsSound(s, worlds, actions, n);
    var r := s.registrations[worlds[n].attempt.value.next];
    if TrimSpace(s.message.channelID) != "" {
      MutedUntilThen(r, s.message.channelID, worlds[n].Now());
    }
  }

  /** An update announces a new title exactly if a title is stored and differs, and likewise for the game. */
  lemma ChangeMeans(channelID: string, title: string, category: string, had: ChannelState, channels: Channels)
    ensures var update := ChannelUpdate(channelID, ChannelState(title, category));
      && (channelID !in channels ==> !TitleChanged(update, channels) && !GameChanged(update, channels))
      && (TitleChanged(update, channels[channelID := had]) <==> title != had.title)
      && (GameChanged(update, channels[channelID := had]) <==> category != had.category)
      && (channelID != "" ==>
            ChannelsAfter(update, channels) == channels[channelID := ChannelState(title, category)])
  {
  }
}
