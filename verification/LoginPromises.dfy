/** How long a login lasts, over whole runs: a session resolves for its device until the time that was last answered. */
module LoginPromises {
  import opened Wrappers
  import opened AuthState
  import opened AuthRevocation
  import opened AuthPromises
  import opened LoginFlow

  // ---------------------------------------------------------------- what a step does to a session

  /** The time until which a session was promised, after a step: a request of its device may have it renewed. */
  function Extended(now: int, action: Action, token: string, owner: Owner, until: int): int {
    if action.Resolve? && action.token == token && action.owner == owner && now <= until
       && action.renewal > 0 && until < now + action.renewal / 2
    then now + action.renewal
    else until
  }

  /** The sessions that are left are the ones that were there. */
  predicate OnlyFewer(s: State, s': State) {
    forall key | key in s'.sessions :: key in s.sessions && s'.sessions[key] == s.sessions[key]
  }

  lemma LoginsOnlyFewer(s: State, state: string, pending: Pending, id: string, credential: Credential, code: string,
                        record: Handoff, now: int)
    ensures OnlyFewer(s, PutPendingIn(s, state, pending, now).0)
    ensures OnlyFewer(s, PutCredentialAndHandoffIn(s, id, credential, code, record, now).0)
  {
  }

  lemma ConsumptionsOnlyFewer(s: State, state: string, code: string, installationID: string, secret: string, now: int)
    ensures OnlyFewer(s, ConsumePendingIn(s, state, now).0)
    ensures OnlyFewer(s, ConsumeHandoffIn(s, code, installationID, secret, state, now).0)
  {
  }

  lemma RemovalsOnlyFewer(s: State, id: string, credential: Credential, token: string, owner: Owner)
    ensures OnlyFewer(s, PutCredentialIn(s, id, credential)) && OnlyFewer(s, DeleteIfUnused(s, id))
    ensures OnlyFewer(s, DeleteSessionIn(s, token, owner).0)
  {
  }

  lemma RevocationOnlyFewer(s: State, me: Owner, s': State, outcome: Result<nat, AuthError>)
    requires RevokeStep(s, me, s', outcome)
    ensures OnlyFewer(s, s')
  {
    hide RevokeStep, WithoutMine;
    RevokeBetween(s, me, s', outcome);
  }

  lemma AccountOnlyFewer(s: State, userID: string, extra: set<string>, s': State)
    requires AccountStep(s, userID, extra, s')
    ensures OnlyFewer(s, s')
  {
  }

  lemma CreationOnlyFewer(s: State, credentialID: string, owner: Owner, token: string, ttl: int, now: int)
    ensures var s' := CreateSessionIn(s, credentialID, owner, token, ttl, now).0;
      forall key | key in s'.sessions && key != HashOf(token) ::
        key in s.sessions && s'.sessions[key] == s.sessions[key]
  {
  }

  lemma ResolveExtends(s: State, action: Action, now: int, token: string)
    requires action.Resolve? && HashOf(token) in s.sessions && Hashed(s.sessions[HashOf(token)].owner)
    ensures var s', key := ResolveSessionIn(s, action.token, action.owner, action.renewal, now).0, HashOf(token);
      key in s'.sessions ==>
        s'.sessions[key] == s.sessions[key].(expiresAt :=
          Extended(now, action, token, s.sessions[key].owner, s.sessions[key].expiresAt))
  {
  }

  lemma OtherOnlyFewer(w: World, action: Action, w': World)
    requires Step(w, action, w') && !action.Resolve? && !action.Complete?
    ensures OnlyFewer(w.store, w'.store)
  {
    hide PutPendingIn, ConsumePendingIn, PutCredentialAndHandoffIn, ConsumeHandoffIn, CreateSessionIn;
    hide PutCredentialIn, DeleteIfUnused, ResolveSessionIn, DeleteSessionIn, RevokeStep, AccountStep;
    var s := w.store;
    match action {
      case Start(state, record) =>
        LoginsOnlyFewer(s, state, record, "", Credential("", "", ""), "", Handoff("", record.owner, "", NoHash, 0, 0),
                        w.now);
      case HandOff(state, id, credential, code, ttl) =>
        var p := w.exchanging[state];
        LoginsOnlyFewer(s, state, p, id, credential, code,
                        Handoff(id, p.owner, p.callback, HashOf(state), w.now, w.now + ttl), w.now);
      case Return(state) => ConsumptionsOnlyFewer(s, state, "", "", "", w.now);
      case Present(code, i, secret, state) => ConsumptionsOnlyFewer(s, state, code, i, secret, w.now);
      case Refresh(id, credential) => RemovalsOnlyFewer(s, id, credential, "", Owner("", NoHash));
      case DropUnused(id) => RemovalsOnlyFewer(s, id, Credential("", "", ""), "", Owner("", NoHash));
      case Logout(token, owner) => RemovalsOnlyFewer(s, "", Credential("", "", ""), token, owner);
      case RevokeDevice(me, outcome) => RevocationOnlyFewer(s, me, w'.store, outcome);
      case RevokeUser(userID, extra) => AccountOnlyFewer(s, userID, extra, w'.store);
      case _ =>
    }
  }

  /** A session that is still there after a step is the same, up to a renewal. */
  lemma StepExtends(w: World, action: Action, w': World, token: string)
    requires Traced(w) && Step(w, action, w') && HashOf(token) in w.store.sessions && HashOf(token) in w'.store.sessions
    requires Hashed(w.store.sessions[HashOf(token)].owner)
    ensures var session := w.store.sessions[HashOf(token)];
      w'.store.sessions[HashOf(token)]
      == session.(expiresAt := Extended(w.now, action, token, session.owner, session.expiresAt))
  {
    hide Traced, ResolveSessionIn, CreateSessionIn, PutPendingIn, ConsumePendingIn, PutCredentialAndHandoffIn;
    hide ConsumeHandoffIn, DeleteSessionIn, RevokeStep, AccountStep;
    match action {
      case Resolve(_, _, _) => ResolveExtends(w.store, action, w.now, token);
      case Complete(code, other, ttl) =>
        TokenIsNew(w, HashOf(token), other);
        var c := w.completing[code];
        CreationOnlyFewer(w.store, c.record.credentialID, c.owner, other, ttl, w.now);
      case _ => OtherOnlyFewer(w, action, w');
    }
  }

  // ---------------------------------------------------------------- completions

  predicate CompletingHashed(w: World) {
    forall c | c in w.completing :: Hashed(w.completing[c].owner)
  }

  lemma StepKeepsHashed(w: World, action: Action, w': World)
    requires CompletingHashed(w) && Step(w, action, w')
    ensures CompletingHashed(w')
  {
    hide PutPendingIn, ConsumePendingIn, PutCredentialAndHandoffIn, ConsumeHandoffIn, CreateSessionIn;
    hide PutCredentialIn, DeleteIfUnused, ResolveSessionIn, DeleteSessionIn, RevokeStep, AccountStep;
  }

  lemma {:induction false} ReachableIsHashed(worlds: seq<World>, actions: seq<Action>, n: nat)
    requires IsRun(worlds, actions) && n <= |actions|
    ensures CompletingHashed(worlds[n])
  {
    hide Step;
    if n > 0 {
      ReachableIsHashed(worlds, actions, n - 1);
      StepKeepsHashed(worlds[n - 1], actions[n - 1], worlds[n]);
    }
  }

  // ---------------------------------------------------------------- over runs

  /** The step creates a session. */
  predicate Creates(w: World, action: Action) {
    action.Complete? && action.code in w.completing && action.ttl >= 0
    && CreateSessionIn(w.store, w.completing[action.code].record.credentialID, w.completing[action.code].owner,
                       action.token, action.ttl, w.now).1.Ok?
  }

  /** The session that a completion creates: the handoff's credential, for the device that presented it, for the whole
      lifetime. */
  function Granted(w: World, action: Action): Session
    requires Creates(w, action)
  {
    var c := w.completing[action.code];
    Session(c.record.credentialID, c.owner, w.now, w.now + action.ttl)
  }

  lemma NewSession(w: World, action: Action, w': World)
    requires Step(w, action, w') && Creates(w, action) && CompletingHashed(w)
    ensures Stored(w', action.token, Granted(w, action)) && Hashed(Granted(w, action).owner)
  {
    var c := w.completing[action.code];
    CreatedIsThere(w.store, c.record.credentialID, c.owner, action.token, action.ttl, w.now);
    hide CreateSessionIn;
  }

  lemma TokenStaysIssued(w: World, action: Action, w': World)
    requires Step(w, action, w')
    ensures w.issued <= w'.issued && w.now <= w'.now
  {
    hide PutPendingIn, ConsumePendingIn, PutCredentialAndHandoffIn, ConsumeHandoffIn, CreateSessionIn;
    hide PutCredentialIn, DeleteIfUnused, ResolveSessionIn, DeleteSessionIn, RevokeStep, AccountStep;
  }

  /** A session does not come back. */
  lemma GoneStaysGone(w: World, action: Action, w': World, token: string)
    requires Traced(w) && Step(w, action, w') && token in w.issued && HashOf(token) in w'.store.sessions
    ensures HashOf(token) in w.store.sessions
  {
    hide Traced, ResolveSessionIn, CreateSessionIn, PutPendingIn, ConsumePendingIn, PutCredentialAndHandoffIn;
    hide ConsumeHandoffIn, DeleteSessionIn, RevokeStep, AccountStep, PutCredentialIn, DeleteIfUnused;
    match action {
      case Resolve(other, owner, renewal) => ResolveAddsNothing(w.store, other, owner, renewal, w.now);
      case Complete(code, other, ttl) =>
        var c := w.completing[code];
        CreationOnlyFewer(w.store, c.record.credentialID, c.owner, other, ttl, w.now);
      case _ => OtherOnlyFewer(w, action, w');
    }
  }

  lemma {:induction false} StaysIssued(worlds: seq<World>, actions: seq<Action>, i: nat, j: nat)
    requires IsRun(worlds, actions) && i <= j <= |actions|
    ensures worlds[i].issued <= worlds[j].issued
    decreases j
  {
    hide Step;
    if i < j {
      StaysIssued(worlds, actions, i, j - 1);
      TokenStaysIssued(worlds[j - 1], actions[j - 1], worlds[j]);
    }
  }

  lemma StoredIsIssued(w: World, token: string)
    requires Traced(w) && HashOf(token) in w.store.sessions
    ensures token in w.issued
  {
  }

  /** Until when a session was promised to last, as of the state `j`, if in state `from` it was until `until`. */
  function Until(worlds: seq<World>, actions: seq<Action>, token: string, owner: Owner, from: nat, until: int,
                 j: nat): int
    requires from <= j <= |actions| < |worlds|
  {
    if j == from then until
    else Extended(worlds[j - 1].now, actions[j - 1], token, owner,
                  Until(worlds, actions, token, owner, from, until, j - 1))
  }

  /** The session as it is in state `j`, if it is still there. */
  function AsOf(worlds: seq<World>, actions: seq<Action>, token: string, from: nat, session: Session, j: nat): Session
    requires from <= j <= |actions| < |worlds|
  {
    session.(expiresAt := Until(worlds, actions, token, session.owner, from, session.expiresAt, j))
  }

  /** Neither its device nor the end of its account has ended the session. */
  predicate Unended(worlds: seq<World>, actions: seq<Action>, session: Session, from: nat, j: nat)
    requires from <= j <= |actions| < |worlds|
  {
    forall k | from <= k < j :: !EndedBy(worlds[k], actions[k], session)
  }

  predicate Stored(w: World, token: string, session: Session) {
    HashOf(token) in w.store.sessions && w.store.sessions[HashOf(token)] == session
  }

  lemma OneStepOn(w: World, action: Action, w': World, token: string, session: Session)
    requires Traced(w) && Step(w, action, w') && token in w.issued && Hashed(session.owner)
    requires HashOf(token) in w.store.sessions ==> w.store.sessions[HashOf(token)] == session
    ensures HashOf(token) in w'.store.sessions ==>
      w'.store.sessions[HashOf(token)]
      == session.(expiresAt := Extended(w.now, action, token, session.owner, session.expiresAt))
  {
    hide Traced, Step, Extended;
    if HashOf(token) in w'.store.sessions {
      GoneStaysGone(w, action, w', token);
      StepExtends(w, action, w', token);
    }
  }

  /** In every later state a session, if it is still there, is the same, and lasts as long as promised. */
  lemma {:induction false} SessionAsPromised(worlds: seq<World>, actions: seq<Action>, token: string, from: nat,
                                             session: Session, j: nat)
    requires IsRun(worlds, actions) && from <= j <= |actions|
    requires Stored(worlds[from], token, session) && Hashed(session.owner)
    ensures HashOf(token) in worlds[j].store.sessions ==>
      worlds[j].store.sessions[HashOf(token)] == AsOf(worlds, actions, token, from, session, j)
    decreases j
  {
    hide Step, Extended, Valid, Traced;
    if j > from {
      SessionAsPromised(worlds, actions, token, from, session, j - 1);
      ReachableIsSound(worlds, actions, from);
      StoredIsIssued(worlds[from], token);
      StaysIssued(worlds, actions, from, j - 1);
      ReachableIsSound(worlds, actions, j - 1);
      OneStepOn(worlds[j - 1], actions[j - 1], worlds[j], token, AsOf(worlds, actions, token, from, session, j - 1));
    }
  }

  lemma PromisedBefore(worlds: seq<World>, actions: seq<Action>, token: string, from: nat, session: Session, j: nat)
    requires IsRun(worlds, actions) && from < j <= |actions|
    requires worlds[j].now <= AsOf(worlds, actions, token, from, session, j).expiresAt
    ensures worlds[j - 1].now <= AsOf(worlds, actions, token, from, session, j - 1).expiresAt
  {
    hide Step;
    TokenStaysIssued(worlds[j - 1], actions[j - 1], worlds[j]);
  }

  lemma SameEnd(w: World, action: Action, a: Session, b: Session)
    requires a.owner == b.owner && a.credentialID == b.credentialID
    ensures EndedBy(w, action, a) == EndedBy(w, action, b)
  {
  }

  lemma {:induction false} SessionStays(worlds: seq<World>, actions: seq<Action>, token: string, from: nat,
                                        session: Session, j: nat)
    requires IsRun(worlds, actions) && from <= j <= |actions|
    requires Stored(worlds[from], token, session) && Hashed(session.owner)
    requires worlds[j].now <= AsOf(worlds, actions, token, from, session, j).expiresAt
    requires Unended(worlds, actions, session, from, j)
    ensures HashOf(token) in worlds[j].store.sessions
    decreases j
  {
    hide Step, EndedBy, Until;
    if j > from {
      PromisedBefore(worlds, actions, token, from, session, j);
      SessionStays(worlds, actions, token, from, session, j - 1);
      SessionAsPromised(worlds, actions, token, from, session, j - 1);
      SameEnd(worlds[j - 1], actions[j - 1], session, AsOf(worlds, actions, token, from, session, j - 1));
      SessionsEndByOwner(worlds, actions, j - 1, HashOf(token));
    }
  }

  lemma AnswerFor(s: State, token: string, session: Session, renewal: int, now: int)
    requires Hashed(session.owner) && (HashOf(token) in s.sessions ==> s.sessions[HashOf(token)] == session)
    ensures var answer := ResolveSessionIn(s, token, session.owner, renewal, now).1;
      if HashOf(token) !in s.sessions then answer == Err(NotFound)
      else if now > session.expiresAt then answer == Err(Expired)
      else answer.Ok? && answer.value == session.(expiresAt := answer.value.expiresAt)
           && answer.value.expiresAt >= session.expiresAt
  {
  }

  lemma {:induction false} NeverShorter(worlds: seq<World>, actions: seq<Action>, token: string, owner: Owner,
                                        from: nat, until: int, j: nat)
    requires from <= j <= |actions| < |worlds|
    ensures Until(worlds, actions, token, owner, from, until, j) >= until
    decreases j
  {
    if j > from {
      NeverShorter(worlds, actions, token, owner, from, until, j - 1);
    }
  }

  lemma CreatesCompletes(w: World, action: Action)
    requires Creates(w, action)
    ensures action.Complete?
  {
    hide CreateSessionIn;
  }

  lemma GrantedIsStored(worlds: seq<World>, actions: seq<Action>, i: nat)
    requires IsRun(worlds, actions) && i < |actions| && Creates(worlds[i], actions[i])
    ensures actions[i].Complete? && Stored(worlds[i + 1], actions[i].token, Granted(worlds[i], actions[i]))
    ensures Hashed(Granted(worlds[i], actions[i]).owner)
  {
    hide Step, Creates, Granted, Stored, Hashed, CompletingHashed;
    CreatesCompletes(worlds[i], actions[i]);
    ReachableIsHashed(worlds, actions, i);
    NewSession(worlds[i], actions[i], worlds[i + 1]);
  }

  /** What is promised of a session: until it expires, renewals counted, it resolves for its device, unless its device
      or the end of its account has ended it, and after that time it does not resolve any more. */
  ghost predicate KeepsPromise(worlds: seq<World>, actions: seq<Action>, token: string, from: nat, session: Session,
                               j: nat, renewal: int)
    requires from <= j <= |actions| < |worlds|
  {
    var answer := ResolveSessionIn(worlds[j].store, token, session.owner, renewal, worlds[j].now).1;
    var asOf := AsOf(worlds, actions, token, from, session, j);
    && asOf.expiresAt >= session.expiresAt
    && (worlds[j].now > asOf.expiresAt ==> answer.Err?)
    && (worlds[j].now <= asOf.expiresAt && Unended(worlds, actions, session, from, j) ==>
          answer.Ok? && answer.value == asOf.(expiresAt := answer.value.expiresAt)
          && answer.value.expiresAt >= asOf.expiresAt)
  }

  /** In every run, a stored session keeps this promise. */
  lemma StoredResolves(worlds: seq<World>, actions: seq<Action>, token: string, from: nat, session: Session, j: nat,
                       renewal: int)
    requires IsRun(worlds, actions) && from <= j <= |actions|
    requires Stored(worlds[from], token, session) && Hashed(session.owner)
    ensures KeepsPromise(worlds, actions, token, from, session, j, renewal)
  {
    hide Step, Unended, ResolveSessionIn, Until;
    NeverShorter(worlds, actions, token, session.owner, from, session.expiresAt, j);
    SessionAsPromised(worlds, actions, token, from, session, j);
    AnswerFor(worlds[j].store, token, AsOf(worlds, actions, token, from, session, j), renewal, worlds[j].now);
    if worlds[j].now <= AsOf(worlds, actions, token, from, session, j).expiresAt
       && Unended(worlds, actions, session, from, j) {
      SessionStays(worlds, actions, token, from, session, j);
    }
  }

  /** So a completion that creates a session promises it, with the handoff's credential, for the whole lifetime, and the
      session keeps the promise. */
  lemma SessionResolves(worlds: seq<World>, actions: seq<Action>, i: nat, j: nat, renewal: int)
    requires IsRun(worlds, actions) && i < j <= |actions| && Creates(worlds[i], actions[i])
    ensures actions[i].Complete?
    ensures KeepsPromise(worlds, actions, actions[i].token, i + 1, Granted(worlds[i], actions[i]), j, renewal)
  {
    hide Step, Creates, Granted, KeepsPromise, Stored, Hashed, CompletingHashed;
    CreatesCompletes(worlds[i], actions[i]);
    GrantedIsStored(worlds, actions, i);
    hide IsRun;
    StoredResolves(worlds, actions, actions[i].token, i + 1, Granted(worlds[i], actions[i]), j, renewal);
  }
}
