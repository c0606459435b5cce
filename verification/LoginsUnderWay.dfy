/** A login under way is not lost: what was accepted is there when its device comes back for it. */
module LoginsUnderWay {
  import opened Wrappers
  import opened AuthState
  import opened AuthRevocation
  import opened LoginFlow

  // ---------------------------------------------------------------- one step, login states

  /** The installations whose logins the revocation of an account may end. */
  function Reach(s: State, userID: string, extra: set<string>): set<string> {
    var ids := CredentialsOf(s, userID);
    extra + SessionInstallations(s.sessions, ids) + HandoffInstallations(s.handoffs, ids)
  }

  /** The steps that end a login that waits for its state: the state comes back, the device starts another login, or the
      device or the account is revoked. */
  predicate StateEnded(w: World, action: Action, state: string, owner: Owner) {
    match action
    case Start(other, record) => other == state || SameOwner(owner, record.owner)
    case Return(other) => other == state
    case RevokeDevice(me, _) => SameOwner(owner, me)
    case RevokeUser(userID, extra) => owner.installationID in Reach(w.store, userID, extra)
    case _ => false
  }

  /** A login that waits for its state and has not expired. */
  predicate Waits(w: World, state: string, record: Pending) {
    HashOf(state) in w.store.pending && w.store.pending[HashOf(state)] == record
  }

  lemma StartKeepsState(s: State, other: string, added: Pending, now: int, key: Hash)
    requires key in s.pending && now <= s.pending[key].expiresAt
    requires key != HashOf(other) && !SameOwner(s.pending[key].owner, added.owner)
    ensures var after := PutPendingIn(s, other, added, now).0.pending; key in after && after[key] == s.pending[key]
  {
  }

  lemma HandOffKeepsState(s: State, id: string, credential: Credential, code: string, added: Handoff, now: int,
                          key: Hash)
    requires key in s.pending && now <= s.pending[key].expiresAt
    ensures var after := PutCredentialAndHandoffIn(s, id, credential, code, added, now).0.pending;
      key in after && after[key] == s.pending[key]
  {
  }

  lemma CreationKeepsState(s: State, credentialID: string, owner: Owner, token: string, ttl: int, now: int, key: Hash)
    requires key in s.pending && now <= s.pending[key].expiresAt
    ensures var after := CreateSessionIn(s, credentialID, owner, token, ttl, now).0.pending;
      key in after && after[key] == s.pending[key]
  {
  }

  lemma SmallStepsKeepState(s: State, token: string, owner: Owner, renewal: int, now: int, code: string,
                            installationID: string, deviceSecret: string, state: string, id: string)
    ensures ResolveSessionIn(s, token, owner, renewal, now).0.pending == s.pending
    ensures DeleteSessionIn(s, token, owner).0.pending == s.pending && DeleteIfUnused(s, id).pending == s.pending
    ensures ConsumeHandoffIn(s, code, installationID, deviceSecret, state, now).0.pending == s.pending
  {
  }

  lemma ReturnKeepsState(s: State, other: string, now: int, key: Hash)
    requires key in s.pending && key != HashOf(other)
    ensures var after := ConsumePendingIn(s, other, now).0.pending; key in after && after[key] == s.pending[key]
  {
  }

  lemma RevocationKeepsState(s: State, me: Owner, s': State, outcome: Result<nat, AuthError>, key: Hash)
    requires RevokeStep(s, me, s', outcome) && key in s.pending && !SameOwner(s.pending[key].owner, me)
    ensures key in s'.pending && s'.pending[key] == s.pending[key]
  {
  }

  lemma AccountKeepsState(s: State, userID: string, extra: set<string>, s': State, key: Hash)
    requires AccountStep(s, userID, extra, s') && key in s.pending
    requires s.pending[key].owner.installationID !in Reach(s, userID, extra)
    ensures key in s'.pending && s'.pending[key] == s.pending[key]
  {
  }

  lemma LoginKeepsState(w: World, action: Action, w': World, state: string, record: Pending)
    requires Step(w, action, w') && Waits(w, state, record) && w.now <= record.expiresAt
    requires !StateEnded(w, action, state, record.owner)
    requires action.Start? || action.HandOff? || action.Complete?
    ensures Waits(w', state, record)
  {
    var s, key := w.store, HashOf(state);
    hide PutPendingIn, PutCredentialAndHandoffIn, CreateSessionIn, SameOwner;
    match action {
      case Start(other, added) => StartKeepsState(s, other, added, w.now, key);
      case HandOff(other, id, credential, code, ttl) =>
        var p := w.exchanging[other];
        HandOffKeepsState(s, id, credential, code, Handoff(id, p.owner, p.callback, HashOf(other), w.now, w.now + ttl),
                          w.now, key);
      case Complete(code, token, ttl) =>
        var c := w.completing[code];
        CreationKeepsState(s, c.record.credentialID, c.owner, token, ttl, w.now, key);
    }
  }

  lemma RestKeepsState(w: World, action: Action, w': World, state: string, record: Pending)
    requires Step(w, action, w') && Waits(w, state, record) && !StateEnded(w, action, state, record.owner)
    requires !(action.Start? || action.HandOff? || action.Complete?)
    ensures Waits(w', state, record)
  {
    var s, key := w.store, HashOf(state);
    hide ConsumeHandoffIn, RevokeStep, AccountStep, SameOwner, ResolveSessionIn, DeleteSessionIn, DeleteIfUnused, Reach;
    hide ConsumePendingIn;
    match action {
      case Return(other) => ReturnKeepsState(s, other, w.now, key);
      case Present(code, installationID, secret, presented) =>
        SmallStepsKeepState(s, "", record.owner, 0, w.now, code, installationID, secret, presented, "");
      case DropUnused(id) => SmallStepsKeepState(s, "", record.owner, 0, w.now, "", "", "", "", id);
      case Resolve(token, owner, renewal) => SmallStepsKeepState(s, token, owner, renewal, w.now, "", "", "", "", "");
      case Logout(token, owner) => SmallStepsKeepState(s, token, owner, 0, w.now, "", "", "", "", "");
      case RevokeDevice(me, outcome) => RevocationKeepsState(s, me, w'.store, outcome, key);
      case RevokeUser(userID, extra) => AccountKeepsState(s, userID, extra, w'.store, key);
      case _ =>
    }
  }

  lemma StepKeepsState(w: World, action: Action, w': World, state: string, record: Pending)
    requires Step(w, action, w') && Waits(w, state, record) && w.now <= record.expiresAt
    requires !StateEnded(w, action, state, record.owner)
    ensures Waits(w', state, record)
  {
    hide Step, Waits, StateEnded;
    if action.Start? || action.HandOff? || action.Complete? {
      LoginKeepsState(w, action, w', state, record);
    } else {
      RestKeepsState(w, action, w', state, record);
    }
  }

  // ---------------------------------------------------------------- over runs

  lemma {:induction false} TimeMovesOn(worlds: seq<World>, actions: seq<Action>, i: nat, j: nat)
    requires IsRun(worlds, actions) && i <= j <= |actions|
    ensures worlds[i].now <= worlds[j].now
    decreases j
  {
    hide Step;
    if i < j {
      TimeMovesOn(worlds, actions, i, j - 1);
      StepMovesOn(worlds[j - 1], actions[j - 1], worlds[j]);
    }
  }

  lemma StepMovesOn(w: World, action: Action, w': World)
    requires Step(w, action, w')
    ensures w.now <= w'.now
  {
    hide PutPendingIn, ConsumePendingIn, PutCredentialAndHandoffIn, CreateSessionIn, ConsumeHandoffIn, RevokeStep;
    hide AccountStep, SameOwner, ResolveSessionIn, DeleteSessionIn, DeleteIfUnused;
  }

  lemma {:induction false} StateWaits(worlds: seq<World>, actions: seq<Action>, i: nat, j: nat, state: string,
                                      record: Pending)
    requires IsRun(worlds, actions) && i <= j <= |actions| && Waits(worlds[i], state, record)
    requires worlds[j].now <= record.expiresAt
    requires forall k | i <= k < j :: !StateEnded(worlds[k], actions[k], state, record.owner)
    ensures Waits(worlds[j], state, record)
    decreases j
  {
    hide Step, Waits, StateEnded;
    if i < j {
      TimeMovesOn(worlds, actions, j - 1, j);
      StateWaits(worlds, actions, i, j - 1, state, record);
      StepKeepsState(worlds[j - 1], actions[j - 1], worlds[j], state, record);
    }
  }

  lemma StartWaits(w: World, state: string, record: Pending, w': World)
    requires Step(w, Start(state, record), w') && PutPendingIn(w.store, state, record, w.now).1.Ok?
    ensures Waits(w', state, record)
  {
  }

  /** In every run: a login that was started and comes back with its state before it expires is taken up where it was
      left, unless its device started another one or was revoked, or the account was. */
  lemma StartedComesBack(worlds: seq<World>, actions: seq<Action>, i: nat, j: nat)
    requires IsRun(worlds, actions) && i < j < |actions| && actions[i].Start?
    requires PutPendingIn(worlds[i].store, actions[i].state, actions[i].record, worlds[i].now).1.Ok?
    requires actions[j] == Return(actions[i].state) && worlds[j].now <= actions[i].record.expiresAt
    requires forall k | i < k < j :: !StateEnded(worlds[k], actions[k], actions[i].state, actions[i].record.owner)
    ensures ConsumePendingIn(worlds[j].store, actions[i].state, worlds[j].now).1 == Ok(actions[i].record)
  {
    var state, record := actions[i].state, actions[i].record;
    assert Step(worlds[i], Start(state, record), worlds[i + 1]);
    StartWaits(worlds[i], state, record, worlds[i + 1]);
    hide Step, StateEnded, IsRun;
    StateWaits(worlds, actions, i + 1, j, state, record);
  }

  // ---------------------------------------------------------------- handoffs

  /** The steps that end a handoff: its device takes it, gets another one, or is revoked, or the account is. */
  predicate CodeEnded(w: World, action: Action, code: string, record: Handoff) {
    match action
    case HandOff(state, _, _, other, _) =>
      other == code || (state in w.exchanging && SameOwner(record.owner, w.exchanging[state].owner))
    case Present(other, _, _, _) => other == code && Consumes(w, action)
    case RevokeDevice(me, _) => SameOwner(record.owner, me)
    case RevokeUser(userID, extra) =>
      record.credentialID in CredentialsOf(w.store, userID)
      || record.owner.installationID in Reach(w.store, userID, extra)
    case _ => false
  }

  predicate Offered(w: World, code: string, record: Handoff) {
    HashOf(code) in w.store.handoffs && w.store.handoffs[HashOf(code)] == record
  }

  lemma StartKeepsCode(s: State, state: string, added: Pending, now: int, key: Hash)
    requires key in s.handoffs && now <= s.handoffs[key].expiresAt
    ensures var after := PutPendingIn(s, state, added, now).0.handoffs; key in after && after[key] == s.handoffs[key]
  {
  }

  lemma HandOffKeepsCode(s: State, id: string, credential: Credential, code: string, added: Handoff, now: int,
                         key: Hash)
    requires key in s.handoffs && now <= s.handoffs[key].expiresAt
    requires key != HashOf(code) && !SameOwner(s.handoffs[key].owner, added.owner)
    ensures var after := PutCredentialAndHandoffIn(s, id, credential, code, added, now).0.handoffs;
      key in after && after[key] == s.handoffs[key]
  {
  }

  lemma CreationKeepsCode(s: State, credentialID: string, owner: Owner, token: string, ttl: int, now: int, key: Hash)
    requires key in s.handoffs && now <= s.handoffs[key].expiresAt
    ensures var after := CreateSessionIn(s, credentialID, owner, token, ttl, now).0.handoffs;
      key in after && after[key] == s.handoffs[key]
  {
  }

  lemma PresentKeepsCode(s: State, other: string, installationID: string, deviceSecret: string, state: string,
                         now: int, key: Hash)
    requires key in s.handoffs && now <= s.handoffs[key].expiresAt
    requires HashOf(other) == key ==> ConsumeHandoffIn(s, other, installationID, deviceSecret, state, now).1.Err?
    ensures var after := ConsumeHandoffIn(s, other, installationID, deviceSecret, state, now).0.handoffs;
      key in after && after[key] == s.handoffs[key]
  {
  }

  lemma SmallStepsKeepCode(s: State, token: string, owner: Owner, renewal: int, now: int, state: string, id: string)
    ensures ResolveSessionIn(s, token, owner, renewal, now).0.handoffs == s.handoffs
    ensures DeleteSessionIn(s, token, owner).0.handoffs == s.handoffs && DeleteIfUnused(s, id).handoffs == s.handoffs
    ensures ConsumePendingIn(s, state, now).0.handoffs == s.handoffs
  {
  }

  lemma RevocationKeepsCode(s: State, me: Owner, s': State, outcome: Result<nat, AuthError>, key: Hash)
    requires RevokeStep(s, me, s', outcome) && key in s.handoffs && !SameOwner(s.handoffs[key].owner, me)
    ensures key in s'.handoffs && s'.handoffs[key] == s.handoffs[key]
  {
  }

  lemma AccountKeepsCode(s: State, userID: string, extra: set<string>, s': State, key: Hash)
    requires AccountStep(s, userID, extra, s') && key in s.handoffs
    requires s.handoffs[key].credentialID !in CredentialsOf(s, userID)
    requires s.handoffs[key].owner.installationID !in Reach(s, userID, extra)
    ensures key in s'.handoffs && s'.handoffs[key] == s.handoffs[key]
  {
  }

  lemma LoginKeepsCode(w: World, action: Action, w': World, code: string, record: Handoff)
    requires Step(w, action, w') && Offered(w, code, record) && w.now <= record.expiresAt
    requires !CodeEnded(w, action, code, record)
    requires action.Start? || action.HandOff? || action.Present? || action.Complete?
    ensures Offered(w', code, record)
  {
    var s, key := w.store, HashOf(code);
    hide PutPendingIn, PutCredentialAndHandoffIn, CreateSessionIn, ConsumeHandoffIn, SameOwner;
    match action {
      case Start(state, added) => StartKeepsCode(s, state, added, w.now, key);
      case HandOff(state, id, credential, other, ttl) =>
        var p := w.exchanging[state];
        HandOffKeepsCode(s, id, credential, other, Handoff(id, p.owner, p.callback, HashOf(state), w.now, w.now + ttl),
                         w.now, key);
      case Present(other, installationID, secret, state) =>
        PresentKeepsCode(s, other, installationID, secret, state, w.now, key);
      case Complete(other, token, ttl) =>
        var c := w.completing[other];
        CreationKeepsCode(s, c.record.credentialID, c.owner, token, ttl, w.now, key);
    }
  }

  lemma RestKeepsCode(w: World, action: Action, w': World, code: string, record: Handoff)
    requires Step(w, action, w') && Offered(w, code, record) && !CodeEnded(w, action, code, record)
    requires !(action.Start? || action.HandOff? || action.Present? || action.Complete?)
    ensures Offered(w', code, record)
  {
    var s, key := w.store, HashOf(code);
    hide ConsumePendingIn, RevokeStep, AccountStep, SameOwner, ResolveSessionIn, DeleteSessionIn, DeleteIfUnused;
    hide Reach, CredentialsOf;
    match action {
      case Return(state) => SmallStepsKeepCode(s, "", record.owner, 0, w.now, state, "");
      case DropUnused(id) => SmallStepsKeepCode(s, "", record.owner, 0, w.now, "", id);
      case Resolve(token, owner, renewal) => SmallStepsKeepCode(s, token, owner, renewal, w.now, "", "");
      case Logout(token, owner) => SmallStepsKeepCode(s, token, owner, 0, w.now, "", "");
      case RevokeDevice(me, outcome) => RevocationKeepsCode(s, me, w'.store, outcome, key);
      case RevokeUser(userID, extra) => AccountKeepsCode(s, userID, extra, w'.store, key);
      case _ =>
    }
  }

  lemma StepKeepsCode(w: World, action: Action, w': World, code: string, record: Handoff)
    requires Step(w, action, w') && Offered(w, code, record) && w.now <= record.expiresAt
    requires !CodeEnded(w, action, code, record)
    ensures Offered(w', code, record)
  {
    hide Step, Offered, CodeEnded;
    if action.Start? || action.HandOff? || action.Present? || action.Complete? {
      LoginKeepsCode(w, action, w', code, record);
    } else {
      RestKeepsCode(w, action, w', code, record);
    }
  }

  lemma {:induction false} CodeIsOffered(worlds: seq<World>, actions: seq<Action>, i: nat, j: nat, code: string,
                                         record: Handoff)
    requires IsRun(worlds, actions) && i <= j <= |actions| && Offered(worlds[i], code, record)
    requires worlds[j].now <= record.expiresAt
    requires forall k | i <= k < j :: !CodeEnded(worlds[k], actions[k], code, record)
    ensures Offered(worlds[j], code, record)
    decreases j
  {
    hide Step, Offered, CodeEnded;
    if i < j {
      TimeMovesOn(worlds, actions, j - 1, j);
      CodeIsOffered(worlds, actions, i, j - 1, code, record);
      StepKeepsCode(worlds[j - 1], actions[j - 1], worlds[j], code, record);
    }
  }

  /** The handoff that a step makes of a login. */
  function MadeOf(w: World, action: Action): Handoff
    requires action.HandOff? && action.state in w.exchanging
  {
    var p := w.exchanging[action.state];
    Handoff(action.credentialID, p.owner, p.callback, HashOf(action.state), w.now, w.now + action.ttl)
  }

  predicate HandsOff(w: World, action: Action) {
    action.HandOff? && action.state in w.exchanging
    && PutCredentialAndHandoffIn(w.store, action.credentialID, action.credential, action.code, MadeOf(w, action),
                                 w.now).1.Ok?
  }

  lemma HandOffOffers(w: World, action: Action, w': World)
    requires Step(w, action, w') && HandsOff(w, action) && action.ttl >= 0
    ensures Offered(w', action.code, MadeOf(w, action))
  {
  }

  /** In every run: a handoff that its device presents with the login's state before it expires is granted, with the
      credential of the login, unless the device has taken it, got another one or was revoked, or the account was. */
  lemma HandedOffComesBack(worlds: seq<World>, actions: seq<Action>, i: nat, j: nat)
    requires IsRun(worlds, actions) && i < j < |actions| && HandsOff(worlds[i], actions[i]) && actions[i].ttl >= 0
    requires actions[j].Present? && actions[j].code == actions[i].code && actions[j].state == actions[i].state
    requires worlds[i].exchanging[actions[i].state].owner
             == Owner(actions[j].installationID, HashOf(actions[j].deviceSecret))
    requires worlds[j].now <= worlds[i].now + actions[i].ttl
    requires forall k | i < k < j :: !CodeEnded(worlds[k], actions[k], actions[i].code, MadeOf(worlds[i], actions[i]))
    ensures Consumes(worlds[j], actions[j])
    ensures var w, a := worlds[j], actions[j];
      ConsumeHandoffIn(w.store, a.code, a.installationID, a.deviceSecret, a.state, w.now).1
      == Ok(MadeOf(worlds[i], actions[i]))
  {
    assert Step(worlds[i], actions[i], worlds[i + 1]);
    HandOffOffers(worlds[i], actions[i], worlds[i + 1]);
    var code, record := actions[i].code, MadeOf(worlds[i], actions[i]);
    assert worlds[j].now <= record.expiresAt;
    hide Step, CodeEnded, IsRun, MadeOf;
    CodeIsOffered(worlds, actions, i + 1, j, code, record);
    MadeOfParts(worlds[i], actions[i]);
    OfferedIsGranted(worlds[j], actions[j], record);
  }

  lemma MadeOfParts(w: World, action: Action)
    requires action.HandOff? && action.state in w.exchanging
    ensures MadeOf(w, action).owner == w.exchanging[action.state].owner
    ensures MadeOf(w, action).stateHash == HashOf(action.state)
  {
  }

  lemma OfferedIsGranted(w: World, a: Action, record: Handoff)
    requires a.Present? && Offered(w, a.code, record) && w.now <= record.expiresAt
    requires record.owner == Owner(a.installationID, HashOf(a.deviceSecret)) && record.stateHash == HashOf(a.state)
    ensures ConsumeHandoffIn(w.store, a.code, a.installationID, a.deviceSecret, a.state, w.now).1 == Ok(record)
  {
  }
}
