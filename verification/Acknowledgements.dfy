/** When an acknowledgement lasts: a flush that already holds the record may still mark it sent or failed. */
module Acknowledgements {
  import opened Wrappers
  import opened Delivery
  import opened DeliveryStore
  import opened Flush
  import opened DeliveryRuns

  /** Some running flush still has the record to send. */
  predicate InBatch(w: World, id: string) {
    exists i, k | i in w.flushing && 0 <= k < |w.flushing[i].batch| :: w.flushing[i].batch[k].id == id
  }

  predicate AckedOrGone(w: World, id: string) {
    id in w.records ==> w.records[id].status == Acked
  }

  /** In every continuation the record is acknowledged for as long as it is there. */
  ghost predicate StaysAcked(w: World, id: string) {
    forall worlds, actions, n: nat | Continues(w, worlds, actions) && n <= |actions| :: AckedOrGone(worlds[n], id)
  }

  // ---------------------------------------------------------------- in no batch

  ghost predicate Final(w: World, id: string) {
    Sound(w) && id in w.used && AckedOrGone(w, id) && !InBatch(w, id)
  }

  /** The same batch, or what is left after its first record. */
  predicate Remaining(after: seq<Record>, before: seq<Record>) {
    after == before || (before != [] && after == before[1..])
  }

  lemma FewerBatches(w: World, w': World, id: string)
    requires !InBatch(w, id)
    requires forall i | i in w'.flushing :: i in w.flushing && Remaining(w'.flushing[i].batch, w.flushing[i].batch)
    ensures !InBatch(w', id)
  {
    forall i, k | i in w'.flushing && 0 <= k < |w'.flushing[i].batch| ensures w'.flushing[i].batch[k].id != id {
      var m := if w'.flushing[i].batch == w.flushing[i].batch then k else k + 1;
      assert w.flushing[i].batch[m].id != id;
    }
  }

  lemma HarmlessKeepsAcked(w: World, w': World, id: string)
    requires AckedOrGone(w, id) && Harmless(w.records, w'.records)
    ensures AckedOrGone(w', id)
  {
  }

  lemma EnqueueKeepsFinal(w: World, r: Record, outcome: Result<Enqueued, StoreError>, w': World, id: string)
    requires Final(w, id) && Step(w, Enqueue(r, outcome), w')
    ensures AckedOrGone(w', id) && !InBatch(w', id)
  {
    hide EnqueueStep, Valid, BatchesSound;
    EnqueueChanges(w.records, r, w.now, w'.records, outcome);
    assert id in w'.records ==> id in w'.records - {r.id};
    FewerBatches(w, w', id);
  }

  lemma StartKeepsFinal(w: World, i: string, socket: bool, w': World, id: string)
    requires Final(w, id) && Step(w, StartFlush(i, socket), w')
    ensures AckedOrGone(w', id) && !InBatch(w', id)
  {
    hide Flush.Pending, Valid, Before, BatchesSound, CountsSound;
    var batch := Flush.Pending(w.records, i, FLUSH_LIMIT, w.now);
    PendingIsOrdered(w.records, i, FLUSH_LIMIT, w.now);
    forall j, k | j in w'.flushing && 0 <= k < |w'.flushing[j].batch| ensures w'.flushing[j].batch[k].id != id {
      if j == i {
        assert w.records[batch[k].id] == batch[k] && Due(batch[k], i, w.now);
      } else {
        assert w.flushing[j].batch[k].id != id;
      }
    }
  }

  lemma SendKeepsFinal(w: World, action: Action, w': World, id: string)
    requires Final(w, id) && Step(w, action, w') && (action.MarkDelivered? || action.ChargeFailure?)
    ensures AckedOrGone(w', id) && !InBatch(w', id)
  {
    hide Valid, BatchesSound, CountsSound, SentRecord, FailedRecord;
    assert w.flushing[action.installationID].batch[0].id != id;
    FewerBatches(w, w', id);
  }

  lemma OtherKeepsFinal(w: World, action: Action, w': World, id: string)
    requires Final(w, id) && Step(w, action, w')
    requires !action.Enqueue? && !action.StartFlush? && !action.MarkDelivered? && !action.ChargeFailure?
    ensures AckedOrGone(w', id) && !InBatch(w', id)
  {
    hide Valid, BatchesSound, CountsSound, InBatch, AckedOrGone, HarmlessRecord, Swept, AckIn, AckThroughIn;
    match action {
      case AcknowledgeSend(i) =>
        AckIsHarmless(w.records, KeyOf(w.flushing[i].acking.value.record), w.flushing[i].acking.value.at);
      case ClientAck(key) => AckIsHarmless(w.records, key, w.now);
      case ClientAckThrough(i, target) => AckThroughIsHarmless(w.records, i, target, w.now);
      case CleanUp => SweepIsHarmless(w.records, w.now);
      case _ => SameIsHarmless(w.records);
    }
    HarmlessKeepsAcked(w, w', id);
    FewerBatches(w, w', id);
  }

  lemma StepKeepsFinal(w: World, action: Action, w': World, id: string)
    requires Final(w, id) && Step(w, action, w')
    ensures Final(w', id)
  {
    StepKeepsSound(w, action, w');
    TimePasses(w, action, w');
    hide Step, Sound, InBatch, AckedOrGone;
    match action {
      case Enqueue(record, outcome) => EnqueueKeepsFinal(w, record, outcome, w', id);
      case StartFlush(i, socket) => StartKeepsFinal(w, i, socket, w', id);
      case MarkDelivered(_) => SendKeepsFinal(w, action, w', id);
      case ChargeFailure(_, _) => SendKeepsFinal(w, action, w', id);
      case _ => OtherKeepsFinal(w, action, w', id);
    }
  }

  lemma {:induction false} FinalLasts(w: World, worlds: seq<World>, actions: seq<Action>, n: nat, id: string)
    requires Final(w, id) && Continues(w, worlds, actions) && n <= |actions|
    ensures Final(worlds[n], id)
  {
    hide Step, Final;
    if n > 0 {
      FinalLasts(w, worlds, actions, n - 1, id);
      StepKeepsFinal(worlds[n - 1], actions[n - 1], worlds[n], id);
    }
  }

  // ---------------------------------------------------------------- in a batch

  /** The flush gets to the record and marks it sent, whatever the client has acknowledged meanwhile. */
  lemma {:induction false} FlushReaches(w: World, i: string, k: nat) returns (worlds: seq<World>, actions: seq<Action>)
    requires i in w.flushing && k < |w.flushing[i].batch| && w.flushing[i].batch[k].id in w.records
    ensures Continues(w, worlds, actions)
    ensures var id := w.flushing[i].batch[k].id;
      id in worlds[|actions|].records && worlds[|actions|].records[id].status == Sent
    decreases 2 * k + if w.flushing[i].acking.Some? then 1 else 0
  {
    var p, id := w.flushing[i], w.flushing[i].batch[k].id;
    if p.acking.Some? {
      var w1 := w.(records := AckIn(w.records, KeyOf(p.acking.value.record), p.acking.value.at),
                   flushing := w.flushing[i := p.(acking := None)]);
      worlds, actions := FlushReaches(w1, i, k);
      Precede(w, AcknowledgeSend(i), worlds, actions);
      worlds, actions := [w] + worlds, [AcknowledgeSend(i)] + actions;
    } else {
      var w1 := w.(records := MarkSentIn(w.records, p.batch[0].id, w.now),
                   flushing := w.flushing[i := Advanced(p, w.now)]);
      assert Step(w, MarkDelivered(i), w1);
      if k == 0 {
        worlds, actions := [w, w1], [MarkDelivered(i)];
      } else {
        assert w1.flushing[i].batch[k - 1].id == id;
        worlds, actions := FlushReaches(w1, i, k - 1);
        Precede(w, MarkDelivered(i), worlds, actions);
        worlds, actions := [w] + worlds, [MarkDelivered(i)] + actions;
      }
    }
  }

  // ---------------------------------------------------------------- exactly when

  /** From every reachable state: an acknowledged record stays acknowledged in all continuations, for as long as it is
      there, exactly if no running flush still has it to send. */
  lemma AckedIsFinalIff(worlds: seq<World>, actions: seq<Action>, n: nat, id: string)
    requires IsRun(worlds, actions) && n <= |actions|
    requires id in worlds[n].records && worlds[n].records[id].status == Acked
    ensures StaysAcked(worlds[n], id) <==> !InBatch(worlds[n], id)
  {
    var w := worlds[n];
    ReachableIsSound(worlds, actions, n);
    if InBatch(w, id) {
      hide Step, Sound;
      var i, k :| i in w.flushing && 0 <= k < |w.flushing[i].batch| && w.flushing[i].batch[k].id == id;
      var later, steps := FlushReaches(w, i, k);
      assert !AckedOrGone(later[|steps|], id);
    } else {
      assert Final(w, id);
      hide Step, Sound, InBatch;
      forall later, steps, m: nat | Continues(w, later, steps) && m <= |steps| ensures AckedOrGone(later[m], id) {
        FinalLasts(w, later, steps, m, id);
      }
    }
  }

  // ---------------------------------------------------------------- an acknowledgement that does not last

  const EARLY := Record("1", "e", "i", "", Pending, 0, 1, 3, 1, 0, 0, "")

  lemma FirstTwoDiffer(batch: seq<Record>, records: Records)
    requires Snapshot(batch, records)
    ensures |batch| >= 2 ==> batch[0].id != batch[1].id
  {
  }

  lemma EarlyIsValid(records: Records)
    requires records == map["1" := EARLY]
    ensures Valid(records) && Due(records["1"], "i", 1)
  {
  }

  lemma EarlyIsDue(records: Records)
    requires records == map["1" := EARLY]
    ensures Flush.Pending(records, "i", FLUSH_LIMIT, 1) == [EARLY]
  {
    var batch := Flush.Pending(records, "i", FLUSH_LIMIT, 1);
    hide Flush.Pending, Valid, Before, Due;
    EarlyIsValid(records);
    PendingIsOrdered(records, "i", FLUSH_LIMIT, 1);
    FirstTwoDiffer(batch, records);
    forall k | 0 <= k < |batch| ensures batch[k] == EARLY {
      assert batch[k].id in records;
    }
    if EARLY !in batch {
      PendingLeavesOutLast(records, "i", FLUSH_LIMIT, 1, "1");
    }
  }

  const ENQUEUED := START.(records := map["1" := EARLY], used := {"1"})

  function Flushing(socket: bool): World {
    ENQUEUED.(flushing := map["i" := Progress([EARLY], None, socket)])
  }

  function Acknowledged(socket: bool): World {
    Flushing(socket).(records := map["1" := AckedRecord(EARLY, 1)])
  }

  lemma EnqueuesEarly()
    ensures Step(START, Enqueue(EARLY, Ok(Enqueued(EARLY, true))), ENQUEUED)
  {
    NothingSwept(1);
    assert Complete(EARLY) && Prepared(EARLY, 1) == EARLY;
    IntoEmpty(map[], EARLY, 1);
    hide EnqueueStep, Swept;
  }

  lemma StartsEarly(socket: bool)
    ensures Step(ENQUEUED, StartFlush("i", socket), Flushing(socket))
  {
    EarlyIsDue(ENQUEUED.records);
    hide Flush.Pending;
  }

  lemma AcknowledgesEarly(socket: bool)
    ensures Step(Flushing(socket), ClientAck(Key("i", "e")), Acknowledged(socket))
  {
    assert KeyOf(EARLY) == Key("i", "e");
  }

  /** The client acknowledges what a flush has read but not yet sent, so that the acknowledgement does not last. */
  lemma AcknowledgedTooEarly(socket: bool) returns (worlds: seq<World>, actions: seq<Action>)
    ensures actions == [Enqueue(EARLY, Ok(Enqueued(EARLY, true))), StartFlush("i", socket), ClientAck(Key("i", "e"))]
    ensures IsRun(worlds, actions)
    ensures "1" in worlds[3].records && worlds[3].records["1"].status == Acked
    ensures InBatch(worlds[3], "1") && !StaysAcked(worlds[3], "1")
  {
    EnqueuesEarly();
    StartsEarly(socket);
    AcknowledgesEarly(socket);
    worlds := [START, ENQUEUED, Flushing(socket), Acknowledged(socket)];
    actions := [Enqueue(EARLY, Ok(Enqueued(EARLY, true))), StartFlush("i", socket), ClientAck(Key("i", "e"))];
    assert Acknowledged(socket).flushing["i"].batch[0].id == "1" && InBatch(Acknowledged(socket), "1");
    hide Step, StaysAcked, InBatch;
    AckedIsFinalIff(worlds, actions, 3, "1");
  }
}
