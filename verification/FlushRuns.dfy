/** A flush is a run: what `Flush` computes for a whole batch is what the steps of `DeliveryRuns` do one by one. */
module FlushRuns {
  import opened Wrappers
  import opened Delivery
  import opened DeliveryStore
  import opened Flush
  import opened DeliveryRuns

  /** How the state ends up: the batch is settled and the flush is over. */
  predicate Ended(w: World, w': World, i: string, records: Records) {
    w'.records == records && w'.flushing == w.flushing - {i} && w'.used == w.used
  }

  /** The time is that of the last send, if there was one. */
  predicate EndsAt(batch: seq<Record>, at: string -> int, now: int, end: int) {
    end == now || exists k | 0 <= k < |batch| :: end == at(batch[k].id)
  }

  /** The steps a flush consists of, and the time they take. */
  predicate FlushAction(a: Action) {
    || a.StartFlush? || a.MarkDelivered? || a.AcknowledgeSend? || a.ChargeFailure? || a.FindNoConnection?
    || a.EndFlush? || a.Wait?
  }

  /** The sends come one after the other. */
  predicate InOrder(batch: seq<Record>, at: string -> int, now: int) {
    && (forall k | 0 <= k < |batch| :: now <= at(batch[k].id))
    && (forall j, k | 0 <= j < k < |batch| :: at(batch[j].id) <= at(batch[k].id))
  }

  function Ending(i: string, outcome: SendOutcome, socket: bool): Action {
    match outcome
    case Delivered => MarkDelivered(i)
    case NoConnection => if socket then FindNoConnection(i) else ChargeFailure(i, "no connection")
    case SendFailed(error) => ChargeFailure(i, error)
  }

  /** A send that does not succeed ends the flush in one step. */
  lemma LastStep(w: World, i: string, outcome: SendOutcome) returns (w': World)
    requires Sends(w, i) && !outcome.Delivered?
    ensures Step(w, Ending(i, outcome, w.flushing[i].socket), w')
    ensures Ended(w, w', i, Settle(w.records, Head(w, i), w.flushing[i].socket, outcome, w.now)) && w'.now == w.now
  {
    var id := Head(w, i).id;
    var over := w.(flushing := w.flushing - {i});
    if outcome.NoConnection? && w.flushing[i].socket {
      w' := over;
    } else {
      var error := if outcome.SendFailed? then outcome.error else "no connection";
      w' := over.(records := MarkFailedIn(w.records, id, error, w.now),
                  failures := if id in w.records then w.failures[id := Charged(w.failures, id) + 1] else w.failures);
    }
    hide FailedRecord;
  }

  /** A send that succeeds takes one step on the socket and two on the other transports. */
  lemma SendSteps(w: World, i: string) returns (worlds: seq<World>, actions: seq<Action>)
    requires Sends(w, i)
    ensures Continues(w, worlds, actions)
    ensures var w', p := worlds[|actions|], w.flushing[i];
      && w'.records == Settle(w.records, Head(w, i), p.socket, Delivered, w.now) && w'.used == w.used && w'.now == w.now
      && w'.flushing == w.flushing[i := Progress(p.batch[1..], None, p.socket)]
    ensures forall n | 0 <= n < |actions| :: FlushAction(actions[n])
  {
    hide SentRecord, AckIn;
    var p := w.flushing[i];
    var w1 := w.(records := MarkSentIn(w.records, p.batch[0].id, w.now),
                 flushing := w.flushing[i := Advanced(p, w.now)]);
    assert Step(w, MarkDelivered(i), w1);
    if p.socket {
      worlds, actions := [w, w1], [MarkDelivered(i)];
    } else {
      var w2 := w1.(records := AckIn(w1.records, KeyOf(p.batch[0]), w.now),
                    flushing := w1.flushing[i := Progress(p.batch[1..], None, false)]);
      assert Step(w1, AcknowledgeSend(i), w2);
      worlds, actions := [w, w1, w2], [MarkDelivered(i), AcknowledgeSend(i)];
    }
  }

  lemma Joined(w: World, worlds: seq<World>, actions: seq<Action>, more: seq<World>, others: seq<Action>)
    requires Continues(w, worlds, actions) && Continues(worlds[|actions|], more, others)
    ensures Continues(w, worlds + more[1..], actions + others)
    ensures (worlds + more[1..])[|actions + others|] == more[|others|]
  {
    hide Step;
    var all, steps := worlds + more[1..], actions + others;
    forall n | 0 <= n < |steps| ensures Step(all[n], steps[n], all[n + 1]) {
      if n < |actions| {
        assert all[n] == worlds[n] && all[n + 1] == worlds[n + 1] && steps[n] == actions[n];
      } else {
        var m := n - |actions|;
        assert all[n] == more[m] && all[n + 1] == more[m + 1] && steps[n] == others[m];
      }
    }
  }

  /** Waiting, and then the rest. */
  lemma WaitFirst(w: World, until: int, worlds: seq<World>, actions: seq<Action>)
    requires until >= w.now && Continues(w.(now := until), worlds, actions)
    ensures Continues(w, [w] + worlds, [Wait(until)] + actions)
    ensures ([w] + worlds)[|[Wait(until)] + actions|] == worlds[|actions|]
  {
    assert Step(w, Wait(until), w.(now := until));
    hide Step;
    Precede(w, Wait(until), worlds, actions);
  }

  lemma EndsLater(batch: seq<Record>, at: string -> int, now: int, end: int)
    requires batch != [] && EndsAt(batch[1..], at, at(batch[0].id), end)
    ensures EndsAt(batch, at, now, end)
  {
    if k :| 0 <= k < |batch[1..]| && end == at(batch[1..][k].id) {
      assert end == at(batch[k + 1].id);
    }
  }

  lemma {:induction false} BatchIsRun(w: World, i: string, outcomes: string -> SendOutcome, at: string -> int)
    returns (worlds: seq<World>, actions: seq<Action>)
    requires i in w.flushing && w.flushing[i].acking.None? && InOrder(w.flushing[i].batch, at, w.now)
    ensures Continues(w, worlds, actions)
    ensures var p := w.flushing[i];
      && Ended(w, worlds[|actions|], i, Flushed(w.records, p.batch, p.socket, outcomes, at))
      && EndsAt(p.batch, at, w.now, worlds[|actions|].now)
    ensures forall n | 0 <= n < |actions| :: FlushAction(actions[n])
    decreases |w.flushing[i].batch|
  {
    hide Settle;
    var batch := w.flushing[i].batch;
    if batch == [] {
      var over := w.(flushing := w.flushing - {i});
      worlds, actions := [w, over], [EndFlush(i)];
    } else {
      var outcome, moment := outcomes(batch[0].id), at(batch[0].id);
      var w0 := w.(now := moment);
      if outcome.Delivered? {
        worlds, actions := SendSteps(w0, i);
        var w1 := worlds[|actions|];
        var more, others := BatchIsRun(w1, i, outcomes, at);
        EndsLater(batch, at, w.now, more[|others|].now);
        assert w1.flushing - {i} == w.flushing - {i};
        hide Step, Flushed;
        Joined(w0, worlds, actions, more, others);
        worlds, actions := worlds + more[1..], actions + others;
      } else {
        var over := LastStep(w0, i, outcome);
        worlds, actions := [w0, over], [Ending(i, outcome, w.flushing[i].socket)];
      }
      hide Step;
      WaitFirst(w, moment, worlds, actions);
      worlds, actions := [w] + worlds, [Wait(moment)] + actions;
    }
  }

  /** The records after a flush are those at the end of a run of single steps, interleaved with nothing but the time
      that the sends take. */
  lemma FlushIsRun(w: World, i: string, socket: bool, outcomes: string -> SendOutcome, at: string -> int)
    returns (worlds: seq<World>, actions: seq<Action>)
    requires i !in w.flushing && InOrder(Flush.Pending(w.records, i, FLUSH_LIMIT, w.now), at, w.now)
    ensures Continues(w, worlds, actions)
    ensures var w' := worlds[|actions|];
      && w'.records == Flushed(w.records, Flush.Pending(w.records, i, FLUSH_LIMIT, w.now), socket, outcomes, at)
      && w'.flushing == w.flushing && w'.used == w.used
      && EndsAt(Flush.Pending(w.records, i, FLUSH_LIMIT, w.now), at, w.now, w'.now)
    ensures forall n | 0 <= n < |actions| :: FlushAction(actions[n])
  {
    hide Flush.Pending, Flushed, InOrder, EndsAt;
    var batch := Flush.Pending(w.records, i, FLUSH_LIMIT, w.now);
    var w1 := w.(flushing := w.flushing[i := Progress(batch, None, socket)]);
    assert Step(w, StartFlush(i, socket), w1);
    worlds, actions := BatchIsRun(w1, i, outcomes, at);
    assert w1.flushing - {i} == w.flushing;
    hide Step;
    Precede(w, StartFlush(i, socket), worlds, actions);
    worlds, actions := [w] + worlds, [StartFlush(i, socket)] + actions;
  }
}
