/** The processing of one EventSub message as the worker runs it; each run is an attempt in the sense of
    `EventProcessing`. */
module EventProcessor {
  import opened Durations
  import opened Wrappers
  import opened Registrations
  import opened Delivery
  import opened DeliveryStore
  import opened EventProcessing
  import Flush
  import FlushRuns
  import R = DeliveryRuns

  /** What an attempt gets from outside: random identifiers, the text and type of notifications, storage faults,
      how devices are connected, what sending to them does, and the clock at each registration. */
  datatype Outside = Outside(
    ids: seq<string>, notification: Registration -> string, eventType: Registration -> string,
    unavailable: string -> bool, saved: bool,
    provider: string -> Option<bool>, sending: string -> Flush.SendOutcome, clock: nat -> int)

  ghost predicate Usable(o: Outside, used: set<string>, count: nat, now: int) {
    && |o.ids| == count
    && (forall i | 0 <= i < count :: o.ids[i] !in used)
    && (forall i, j | 0 <= i < j < count :: o.ids[i] != o.ids[j])
    && (forall i: nat, j: nat | i <= j :: now <= o.clock(i) <= o.clock(j))
  }

  /** How long a notification is worth sending. */
  function NotificationTTL(eventType: string): int {
    if eventType == "title_change" || eventType == "game_change" then 30 * MINUTE
    else if eventType == "stream_online" then 2 * HOUR
    else 24 * HOUR
  }

  /** Titles and games are soon out of date, streams going live later, and everything else after a day. */
  lemma LifetimeByType(eventType: string)
    ensures NotificationTTL(eventType) == 30 * MINUTE <==> eventType in ["title_change", "game_change"]
    ensures NotificationTTL(eventType) == 2 * HOUR <==> eventType in ["stream_online"]
    ensures NotificationTTL(eventType) == 24 * HOUR <==> eventType !in ["title_change", "game_change", "stream_online"]
  {
  }

  function RecordFor(o: Outside, r: Registration, messageID: string, id: string, now: int): Record {
    Record(id, messageID, r.installationID, o.notification(r), Pending, 0, now, now + NotificationTTL(o.eventType(r)),
           now, 0, 0, "")
  }

  // ---------------------------------------------------------------- executions are runs

  /** What happens among the deliveries happens in the environment. */
  lemma {:induction false} Surroundings(s: Setting, w: World, worlds: seq<R.World>, actions: seq<R.Action>, n: nat)
    requires R.Continues(w.delivery, worlds, actions) && n <= |actions|
    ensures Reaches(s, w, w.(delivery := worlds[n]))
  {
    hide R.Step, Reaches;
    ReachesItself(s, w);
    if n > 0 {
      Surroundings(s, w, worlds, actions, n - 1);
      var before, after := w.(delivery := worlds[n - 1]), w.(delivery := worlds[n]);
      OneStep(s, before, Environment(actions[n - 1]), after);
      Onwards(s, w, before, after);
    }
  }

  lemma WaitReaches(s: Setting, w: World, until: int)
    requires w.Now() <= until
    ensures Reaches(s, w, w.(delivery := w.delivery.(now := until)))
  {
    OneStep(s, w, Environment(R.Wait(until)), w.(delivery := w.delivery.(now := until)));
  }

  /** A flush that takes no time. */
  lemma FlushAtOnce(w: R.World, i: string, socket: bool, outcomes: string -> Flush.SendOutcome, at: string -> int)
    returns (worlds: seq<R.World>, actions: seq<R.Action>)
    requires i !in w.flushing && forall id :: at(id) == w.now
    ensures R.Continues(w, worlds, actions)
    ensures var w', batch := worlds[|actions|], Flush.Pending(w.records, i, Flush.FLUSH_LIMIT, w.now);
      && w'.records == Flush.Flushed(w.records, batch, socket, outcomes, at)
      && w'.flushing == w.flushing && w'.used == w.used && w'.now == w.now
  {
    hide Flush.Pending, Flush.Flushed, R.Step;
    worlds, actions := FlushRuns.FlushIsRun(w, i, socket, outcomes, at);
  }

  // ---------------------------------------------------------------- one registration

  /** Enqueues a notification or finds the one that is already there, and flushes the device. What the flush does is a
      run of single steps among the deliveries. */
  method DeliverToRegistration(store: DeliveryStore, o: Outside, r: Registration, messageID: string, id: string,
                               now: int, ghost v: R.World)
    returns (ok: bool, ghost outcome: Option<Result<Enqueued, StoreError>>, ghost enqueued: R.World,
             ghost worlds: seq<R.World>, ghost actions: seq<R.Action>)
    requires Valid(store.records) && v.records == store.records && v.now == now && id !in v.used && v.flushing == map[]
    modifies store
    ensures Valid(store.records)
    ensures o.unavailable(r.installationID) ==> !ok && outcome.None? && enqueued == v
    ensures !o.unavailable(r.installationID) ==>
      && outcome.Some? && ok == outcome.value.Ok?
      && R.Step(v, R.Enqueue(RecordFor(o, r, messageID, id, now), outcome.value), enqueued)
    ensures R.Continues(enqueued, worlds, actions)
    ensures var last := worlds[|actions|];
      last.records == store.records && last.now == now && last.flushing == map[] && last.used <= v.used + {id}
  {
    if o.unavailable(r.installationID) {
      return false, None, v, [v], [];
    }
    var record := RecordFor(o, r, messageID, id, now);
    var result := store.Enqueue(record, now);
    hide EnqueueStep, Valid, KeepsLive, Flush.Pending, Flush.Flushed;
    enqueued, outcome := v.(records := store.records, used := v.used + {id}), Some(result);
    if result.Err? {
      return false, outcome, enqueued, [enqueued], [];
    }
    var provider := o.provider(r.installationID);
    if provider.Some? {
      worlds, actions := FlushAtOnce(enqueued, r.installationID, provider.value, o.sending, _ => now);
    } else {
      worlds, actions := [enqueued], [];
    }
    Flush.FlushPending(store, r.installationID, provider, o.sending, _ => now, now);
    ok := true;
  }

  /** One registration: the attempt goes on by one. */
  method VisitRegistration(store: DeliveryStore, o: Outside, m: Message, r: Registration, titleChanged: bool,
                           gameChanged: bool,
                           id: string, now: int, ghost s: Setting, ghost w: World)
    returns (failed: bool, ghost w': World)
    requires Valid(store.records) && w.Records() == store.records && w.Now() == now && id !in w.delivery.used
    requires w.delivery.flushing == map[]
    requires w.attempt.Some? && w.attempt.value.titleChanged == titleChanged
    requires w.attempt.value.gameChanged == gameChanged
    requires s.message == m && w.attempt.value.next < |s.registrations| && s.registrations[w.attempt.value.next] == r
    modifies store
    ensures Valid(store.records) && Reaches(s, w, w') && w'.Records() == store.records && w'.Now() == now
    ensures w'.delivery.flushing == map[] && w'.delivery.used <= w.delivery.used + {id}
    ensures w'.channels == w.channels && w'.completed == w.completed
    ensures var a := w.attempt.value; w'.attempt == Some(a.(next := a.next + 1, failed := a.failed || failed))
  {
    hide Valid, CountOne, R.Step;
    ghost var a, record := w.attempt.value, RecordFor(o, r, m.id, id, now);
    if !Routes(m, r, titleChanged, gameChanged, now) {
      w' := w.(attempt := Some(a.(next := a.next + 1)));
      OneStep(s, w, Visit(record, None), w');
      return false, w';
    }
    ghost var outcome, enqueued, worlds, actions;
    var ok;
    ok, outcome, enqueued, worlds, actions := DeliverToRegistration(store, o, r, m.id, id, now, w.delivery);
    ghost var visited := w.(delivery := enqueued, attempt := Some(a.(next := a.next + 1, failed := a.failed || !ok)),
      created := if outcome.Some? && outcome.value.Ok? && outcome.value.value.created
                 then CountOne(w.created, r.installationID) else w.created);
    assert Step(s, w, Visit(record, outcome), visited);
    hide Step, Reaches;
    OneStep(s, w, Visit(record, outcome), visited);
    Surroundings(s, visited, worlds, actions, |actions|);
    w' := visited.(delivery := worlds[|actions|]);
    Onwards(s, w, visited, w');
    failed := !ok;
  }

  class EventProcessor {
    const deliveries: DeliveryStore
    var channels: Channels

    constructor (store: DeliveryStore)
      ensures deliveries == store && channels == map[]
    {
      deliveries := store;
      channels := map[];
    }

    /** All registrations in turn. */
    method VisitAll(m: Message, registrations: seq<Registration>, titleChanged: bool, gameChanged: bool, o: Outside,
                    ghost s: Setting, ghost start: World)
      returns (failed: bool, ghost last: World)
      requires Valid(deliveries.records) && Usable(o, start.delivery.used, |registrations|, start.Now())
      requires s.message == m && s.registrations == registrations
      requires start.Records() == deliveries.records && start.delivery.flushing == map[]
      requires start.attempt == Some(Attempt(0, titleChanged, gameChanged, false, start.Now()))
      modifies deliveries
      ensures Valid(deliveries.records) && Reaches(s, start, last)
      ensures last.Records() == deliveries.records && last.channels == start.channels
      ensures last.completed == start.completed
      ensures last.attempt == Some(Attempt(|registrations|, titleChanged, gameChanged, failed, start.Now()))
    {
      hide Valid, Reaches;
      failed, last := false, start;
      ReachesItself(s, start);
      for i := 0 to |registrations|
        invariant Valid(deliveries.records) && Reaches(s, start, last) && last.Records() == deliveries.records
        invariant last.channels == start.channels && last.completed == start.completed
        invariant last.Now() <= o.clock(i) && last.delivery.flushing == map[]
        invariant last.attempt == Some(Attempt(i, titleChanged, gameChanged, failed, start.Now()))
        invariant forall j | i <= j < |registrations| :: o.ids[j] !in last.delivery.used
      {
        var now := o.clock(i);
        WaitReaches(s, last, now);
        ghost var waited := last.(delivery := last.delivery.(now := now));
        Onwards(s, start, last, waited);
        var bad;
        bad, last := VisitRegistration(deliveries, o, m, registrations[i], titleChanged, gameChanged, o.ids[i], now, s,
                                       waited);
        Onwards(s, start, waited, last);
        failed := failed || bad;
        assert now <= o.clock(i + 1);
      }
    }

    /** One attempt at a message. Its execution consists of steps of `EventProcessing`; it reports success only if
        these complete the message, and otherwise the channel state is as before. */
    method ProcessNotification(m: Message, registrations: seq<Registration>, o: Outside, ghost s: Setting,
                               ghost start: World)
      returns (ok: bool, ghost last: World)
      requires Valid(deliveries.records) && Usable(o, start.delivery.used, |registrations|, start.Now())
      requires s.message == m && s.registrations == registrations
      requires start.Records() == deliveries.records && start.delivery.flushing == map[]
      requires start.channels == channels && start.attempt.None?
      modifies this`channels, deliveries
      ensures Valid(deliveries.records) && Reaches(s, start, last)
      ensures last.Records() == deliveries.records && last.channels == channels && last.attempt.None?
      ensures ok ==> last.completed.Some?
      ensures !ok ==> channels == old(channels) && last.completed == start.completed
    {
      hide Valid, Reaches;
      ReachesItself(s, start);
      var titleChanged, gameChanged := false, false;
      if m.kind.ChannelUpdate? {
        if m.kind.channelID == "" {
          return false, start;
        }
        if m.kind.channelID !in channels {
          last := BeginStep(s, start, o.saved);
          OneStep(s, start, Begin(o.saved), last);
          if o.saved {
            channels := channels[m.kind.channelID := m.kind.state];
          }
          return o.saved, last;
        }
        titleChanged := channels[m.kind.channelID].title != m.kind.state.title;
        gameChanged := channels[m.kind.channelID].category != m.kind.state.category;
        if !titleChanged && !gameChanged {
          last := BeginStep(s, start, true);
          OneStep(s, start, Begin(true), last);
          return true, last;
        }
      }
      ghost var begun := BeginStep(s, start, true);
      assert begun == start.(attempt := Some(Attempt(0, titleChanged, gameChanged, false, start.Now())));
      OneStep(s, start, Begin(true), begun);
      var failed;
      ghost var visited;
      failed, visited := VisitAll(m, registrations, titleChanged, gameChanged, o, s, begun);
      last := FinishStep(s, visited, o.saved);
      OneStep(s, visited, Finish(o.saved), last);
      Onwards(s, start, begun, visited);
      Onwards(s, start, visited, last);
      if failed {
        return false, last;
      }
      if m.kind.ChannelUpdate? {
        if !o.saved {
          return false, last;
        }
        channels := channels[m.kind.channelID := m.kind.state];
      }
      ok := true;
    }
  }
}
