/** Logins over whole runs: the steps of all requests to the broker, interleaved in any order. */
module LoginFlow {
  import opened Wrappers
  import opened AuthState
  import opened AuthRevocation

  /** A completion under way: the consumed handoff and what the device presented. */
  datatype Completion = Completion(record: Handoff, owner: Owner, state: string)

  /** A session that was created: the handoff code it was exchanged for, whose it is, and the state the device
      presented. */
  datatype Login = Login(code: string, owner: Owner, state: string)

  /** `exchanging` and `completing` are requests under way. The rest is history: for each login state the device that
      started it, for each handoff code its state, for each session token its login; the states and codes consumed;
      all random values handed out. */
  datatype World = World(
    store: State, exchanging: map<string, Pending>, completing: map<string, Completion>,
    started: map<string, Owner>, handedOff: map<string, string>, created: map<string, Login>,
    spentStates: set<string>, spentCodes: set<string>, issued: set<string>, now: int)

  datatype Action =
    | Start(state: string, record: Pending)
    | Return(state: string)
    | AbandonExchange(state: string)
    | HandOff(state: string, credentialID: string, credential: Credential, code: string, ttl: int)
    | Present(code: string, installationID: string, deviceSecret: string, state: string)
    | AbandonCompletion(code: string)
    | Complete(code: string, token: string, ttl: int)
    | Refresh(credentialID: string, credential: Credential)
    | DropUnused(credentialID: string)
    | Resolve(token: string, owner: Owner, renewal: int)
    | Logout(token: string, owner: Owner)
    | RevokeDevice(me: Owner, outcome: Result<nat, AuthError>)
    | RevokeUser(userID: string, extra: set<string>)
    | Wait(until: int)

  const START := World(EMPTY, map[], map[], map[], map[], map[], {}, {}, {}, 1)

  ghost predicate Step(w: World, action: Action, w': World) {
    match action
    case Start(state, record) =>
      && state !in w.issued
      && var (store, outcome) := PutPendingIn(w.store, state, record, w.now);
         w' == w.(store := store, issued := w.issued + {state},
                  started := if outcome.Ok? then w.started[state := record.owner] else w.started)
    case Return(state) =>
      var (store, outcome) := ConsumePendingIn(w.store, state, w.now);
      if outcome.Ok? then w' == w.(store := store, exchanging := w.exchanging[state := outcome.value],
                                   spentStates := w.spentStates + {state})
      else w' == w.(store := store)
    case AbandonExchange(state) => state in w.exchanging && w' == w.(exchanging := w.exchanging - {state})
    case HandOff(state, credentialID, credential, code, ttl) =>
      && state in w.exchanging && code !in w.issued
      && var pending := w.exchanging[state];
         var record := Handoff(credentialID, pending.owner, pending.callback, HashOf(state), w.now, w.now + ttl);
         var (store, outcome) := PutCredentialAndHandoffIn(w.store, credentialID, credential, code, record, w.now);
         w' == w.(store := store, exchanging := w.exchanging - {state}, issued := w.issued + {code},
                  handedOff := if outcome.Ok? then w.handedOff[code := state] else w.handedOff)
    case Present(code, installationID, deviceSecret, state) =>
      var (store, outcome) := ConsumeHandoffIn(w.store, code, installationID, deviceSecret, state, w.now);
      if outcome.Ok? then
        w' == w.(store := store, spentCodes := w.spentCodes + {code},
                 completing := w.completing[code := Completion(outcome.value,
                                                               Owner(installationID, HashOf(deviceSecret)), state)])
      else w' == w.(store := store)
    case AbandonCompletion(code) => code in w.completing && w' == w.(completing := w.completing - {code})
    case Complete(code, token, ttl) =>
      && code in w.completing && token !in w.issued
      && var c := w.completing[code];
         var (store, outcome) := CreateSessionIn(w.store, c.record.credentialID, c.owner, token, ttl, w.now);
         w' == w.(store := store, completing := w.completing - {code}, issued := w.issued + {token},
                  created := if outcome.Ok? then w.created[token := Login(code, c.owner, c.state)] else w.created)
    case Refresh(credentialID, credential) => w' == w.(store := PutCredentialIn(w.store, credentialID, credential))
    case DropUnused(credentialID) => w' == w.(store := DeleteIfUnused(w.store, credentialID))
    case Resolve(token, owner, renewal) => w' == w.(store := ResolveSessionIn(w.store, token, owner, renewal, w.now).0)
    case Logout(token, owner) => w' == w.(store := DeleteSessionIn(w.store, token, owner).0)
    case RevokeDevice(me, outcome) => RevokeStep(w.store, me, w'.store, outcome) && w' == w.(store := w'.store)
    case RevokeUser(userID, extra) => AccountStep(w.store, userID, extra, w'.store) && w' == w.(store := w'.store)
    case Wait(until) => until >= w.now && w' == w.(now := until)
  }

  // ---------------------------------------------------------------- the invariant

  predicate PendingTraced(pending: map<Hash, Pending>, started: map<string, Owner>, spentStates: set<string>) {
    forall key | key in pending ::
      key.HashOf? && key.secret in started && key.secret !in spentStates && pending[key].owner == started[key.secret]
  }

  predicate ExchangesTraced(exchanging: map<string, Pending>, handedOff: map<string, string>,
                            started: map<string, Owner>, spentStates: set<string>) {
    && (forall s | s in exchanging :: s in started && s in spentStates && exchanging[s].owner == started[s])
    && (forall c | c in handedOff :: handedOff[c] !in exchanging)
  }

  /** Every handoff code stands for one consumed login state, and no two for the same. */
  predicate CodesTraced(handedOff: map<string, string>, spentStates: set<string>) {
    && (forall c | c in handedOff :: handedOff[c] in spentStates)
    && (forall a, b | a in handedOff && b in handedOff && handedOff[a] == handedOff[b] :: a == b)
  }

  predicate HandoffsTraced(handoffs: map<Hash, Handoff>, handedOff: map<string, string>, started: map<string, Owner>,
                           spentCodes: set<string>) {
    forall key | key in handoffs ::
      && key.HashOf? && key.secret in handedOff && key.secret !in spentCodes && handedOff[key.secret] in started
      && handoffs[key].stateHash == HashOf(handedOff[key.secret])
         && handoffs[key].owner == started[handedOff[key.secret]]
  }

  /** What the device presented is what the login was started with. */
  predicate Matches(started: map<string, Owner>, handedOff: map<string, string>, spentCodes: set<string>,
                    code: string, owner: Owner, state: string) {
    code in spentCodes && code in handedOff && handedOff[code] == state && state in started && started[state] == owner
  }

  predicate CompletionsTraced(completing: map<string, Completion>, started: map<string, Owner>,
                              handedOff: map<string, string>, spentCodes: set<string>) {
    forall c | c in completing :: Matches(started, handedOff, spentCodes, c, completing[c].owner, completing[c].state)
  }

  /** Every session created was exchanged for one consumed handoff code, and no two for the same. */
  predicate LoginsTraced(created: map<string, Login>, completing: map<string, Completion>,
                         started: map<string, Owner>, handedOff: map<string, string>, spentCodes: set<string>) {
    && (forall t | t in created ::
          Matches(started, handedOff, spentCodes, created[t].code, created[t].owner, created[t].state)
          && created[t].code !in completing)
    && (forall a, b | a in created && b in created && created[a].code == created[b].code :: a == b)
  }

  predicate SessionsTraced(sessions: map<Hash, Session>, created: map<string, Login>) {
    forall key | key in sessions ::
      key.HashOf? && key.secret in created && sessions[key].owner == created[key.secret].owner
  }

  predicate HistorySound(w: World) {
    && w.started.Keys <= w.issued && w.handedOff.Keys <= w.issued && w.created.Keys <= w.issued
    && w.spentStates <= w.started.Keys && w.spentCodes <= w.handedOff.Keys
  }

  predicate Traced(w: World) {
    && PendingTraced(w.store.pending, w.started, w.spentStates)
    && ExchangesTraced(w.exchanging, w.handedOff, w.started, w.spentStates)
    && CodesTraced(w.handedOff, w.spentStates)
    && HandoffsTraced(w.store.handoffs, w.handedOff, w.started, w.spentCodes)
    && CompletionsTraced(w.completing, w.started, w.handedOff, w.spentCodes)
    && LoginsTraced(w.created, w.completing, w.started, w.handedOff, w.spentCodes)
    && SessionsTraced(w.store.sessions, w.created)
    && HistorySound(w)
  }

  /** A step of the store that adds nothing and changes no owner. */
  ghost predicate AddsNothing(s: State, s': State) {
    && Sub(s'.pending, s.pending) && Sub(s'.handoffs, s.handoffs)
    && forall key | key in s'.sessions :: key in s.sessions && s'.sessions[key].owner == s.sessions[key].owner
  }

  lemma AddsNothingKeeps(w: World, store: State)
    requires Traced(w) && AddsNothing(w.store, store)
    ensures PendingTraced(store.pending, w.started, w.spentStates)
    ensures HandoffsTraced(store.handoffs, w.handedOff, w.started, w.spentCodes)
    ensures SessionsTraced(store.sessions, w.created)
  {
  }

  // ---------------------------------------------------------------- what the store operations add

  lemma PutPendingAdds(s: State, state: string, record: Pending, now: int)
    ensures var (s', outcome) := PutPendingIn(s, state, record, now);
      if outcome.Err? then AddsNothing(s, s')
      else AddsNothing(s, s'.(pending := s'.pending - {HashOf(state)})) && HashOf(state) in s'.pending
           && s'.pending[HashOf(state)] == record
  {
  }

  lemma CreateSessionAdds(s: State, credentialID: string, owner: Owner, token: string, ttl: int, now: int)
    ensures var (s', outcome) := CreateSessionIn(s, credentialID, owner, token, ttl, now);
      if outcome.Err? then AddsNothing(s, s')
      else AddsNothing(s, s'.(sessions := s'.sessions - {HashOf(token)}))
           && (HashOf(token) in s'.sessions ==> s'.sessions[HashOf(token)].owner == owner)
  {
  }

  lemma OthersAddNothing(w: World, action: Action, w': World)
    requires Step(w, action, w')
    requires (action.Refresh? || action.DropUnused? || action.Resolve? || action.Logout? || action.Wait?)
    ensures AddsNothing(w.store, w'.store) && w' == w.(store := w'.store, now := w'.now)
  {
    hide Used, PutPendingIn, PutHandoffIn, CreateSessionIn, ConsumePendingIn, ConsumeHandoffIn;
    hide PutCredentialAndHandoffIn, RevokeStep, AccountStep;
    hide ResolveSessionIn, DeleteSessionIn, DeleteIfUnused;
    match action {
      case DropUnused(credentialID) => UnusedAddsNothing(w.store, credentialID);
      case Resolve(token, owner, renewal) => ResolveAddsNothing(w.store, token, owner, renewal, w.now);
      case Logout(token, owner) => LogoutAddsNothing(w.store, token, owner);
      case _ =>
    }
  }

  lemma UnusedAddsNothing(s: State, credentialID: string)
    ensures AddsNothing(s, DeleteIfUnused(s, credentialID))
  {
  }

  lemma ResolveAddsNothing(s: State, token: string, owner: Owner, renewal: int, now: int)
    ensures AddsNothing(s, ResolveSessionIn(s, token, owner, renewal, now).0)
  {
  }

  lemma LogoutAddsNothing(s: State, token: string, owner: Owner)
    ensures AddsNothing(s, DeleteSessionIn(s, token, owner).0)
  {
  }

  lemma RevocationsAddNothing(w: World, action: Action, w': World)
    requires Step(w, action, w') && (action.RevokeDevice? || action.RevokeUser?)
    ensures AddsNothing(w.store, w'.store) && w' == w.(store := w'.store)
  {
    hide Used, PutPendingIn, PutHandoffIn, CreateSessionIn, ConsumePendingIn, ConsumeHandoffIn;
    hide PutCredentialAndHandoffIn, RevokeStep, AccountStep, WithoutMine;
    match action {
      case RevokeDevice(me, outcome) => RevokeBetween(w.store, me, w'.store, outcome);
      case RevokeUser(userID, extra) => AccountShrinks(w.store, userID, extra, w'.store);
    }
  }

  // ---------------------------------------------------------------- every step keeps the trace

  /** A login state that was never issued before. */
  lemma StartedGrows(w: World, state: string, owner: Owner)
    requires Traced(w) && state !in w.issued
    ensures var started := w.started[state := owner];
      && ExchangesTraced(w.exchanging, w.handedOff, started, w.spentStates)
      && HandoffsTraced(w.store.handoffs, w.handedOff, started, w.spentCodes)
      && CompletionsTraced(w.completing, started, w.handedOff, w.spentCodes)
      && LoginsTraced(w.created, w.completing, started, w.handedOff, w.spentCodes)
  {
  }

  lemma PendingGrows(rest: map<Hash, Pending>, pending: map<Hash, Pending>, state: string, record: Pending,
                     started: map<string, Owner>, spentStates: set<string>)
    requires PendingTraced(rest, started, spentStates) && state !in started && state !in spentStates
    requires rest == pending - {HashOf(state)} && HashOf(state) in pending && pending[HashOf(state)] == record
    ensures PendingTraced(pending, started[state := record.owner], spentStates)
  {
  }

  lemma StartKeeps(w: World, state: string, record: Pending, w': World)
    requires Traced(w) && Step(w, Start(state, record), w')
    ensures Traced(w')
  {
    hide PutPendingIn, PendingTraced, ExchangesTraced, CodesTraced, HandoffsTraced, CompletionsTraced, LoginsTraced;
    hide SessionsTraced, AddsNothing;
    PutPendingAdds(w.store, state, record, w.now);
    if PutPendingIn(w.store, state, record, w.now).1.Err? {
      AddsNothingKeeps(w, w'.store);
    } else {
      var rest := w'.store.(pending := w'.store.pending - {HashOf(state)});
      AddsNothingKeeps(w, rest);
      StartedGrows(w.(store := rest), state, record.owner);
      PendingGrows(rest.pending, w'.store.pending, state, record, w.started, w.spentStates);
    }
  }

  lemma ConsumedPending(s: State, state: string, now: int)
    ensures var (s', outcome) := ConsumePendingIn(s, state, now);
      AddsNothing(s, s') && (outcome.Ok? ==>
                               HashOf(state) in s.pending && outcome.value == s.pending[HashOf(state)]
                               && HashOf(state) !in s'.pending)
  {
  }

  lemma StateSpent(w: World, state: string, pending: map<Hash, Pending>, record: Pending)
    requires Traced(w) && HashOf(state) in w.store.pending && record == w.store.pending[HashOf(state)]
    requires PendingTraced(pending, w.started, w.spentStates) && HashOf(state) !in pending
    ensures state !in w.spentStates && state in w.started
    ensures PendingTraced(pending, w.started, w.spentStates + {state})
    ensures ExchangesTraced(w.exchanging[state := record], w.handedOff, w.started, w.spentStates + {state})
    ensures CodesTraced(w.handedOff, w.spentStates + {state})
  {
  }

  lemma ReturnKeeps(w: World, state: string, w': World)
    requires Traced(w) && Step(w, Return(state), w')
    ensures Traced(w')
  {
    ConsumedPending(w.store, state, w.now);
    hide ConsumePendingIn, PendingTraced, ExchangesTraced, CodesTraced, HandoffsTraced, CompletionsTraced, LoginsTraced;
    hide SessionsTraced, AddsNothing;
    AddsNothingKeeps(w, w'.store);
    var outcome := ConsumePendingIn(w.store, state, w.now).1;
    if outcome.Ok? {
      StateSpent(w, state, w'.store.pending, outcome.value);
    }
  }

  lemma PutBothAdds(s: State, id: string, credential: Credential, code: string, record: Handoff, now: int)
    ensures var (s', outcome) := PutCredentialAndHandoffIn(s, id, credential, code, record, now);
      if outcome.Err? then AddsNothing(s, s')
      else AddsNothing(s, s'.(handoffs := s'.handoffs - {HashOf(code)}))
           && (HashOf(code) in s'.handoffs ==> s'.handoffs[HashOf(code)] == record)
  {
  }

  lemma CodeAdded(w: World, state: string, code: string)
    requires Traced(w) && state in w.exchanging && code !in w.issued
    ensures var handedOff := w.handedOff[code := state];
      && ExchangesTraced(w.exchanging - {state}, handedOff, w.started, w.spentStates)
      && CodesTraced(handedOff, w.spentStates)
      && CompletionsTraced(w.completing, w.started, handedOff, w.spentCodes)
      && LoginsTraced(w.created, w.completing, w.started, handedOff, w.spentCodes)
  {
  }

  lemma HandoffsGrow(rest: map<Hash, Handoff>, handoffs: map<Hash, Handoff>, state: string, code: string,
                     record: Handoff, handedOff: map<string, string>, started: map<string, Owner>,
                     spentCodes: set<string>)
    requires HandoffsTraced(rest, handedOff, started, spentCodes) && code !in handedOff && code !in spentCodes
    requires rest == handoffs - {HashOf(code)} && (HashOf(code) in handoffs ==> handoffs[HashOf(code)] == record)
    requires state in started && record.owner == started[state] && record.stateHash == HashOf(state)
    ensures HandoffsTraced(handoffs, handedOff[code := state], started, spentCodes)
  {
  }

  lemma HandOffKeeps(w: World, state: string, credentialID: string, credential: Credential, code: string, ttl: int,
                     w': World)
    requires Traced(w) && Step(w, HandOff(state, credentialID, credential, code, ttl), w')
    ensures Traced(w')
  {
    hide PutCredentialAndHandoffIn, PendingTraced, CodesTraced, HandoffsTraced, CompletionsTraced, LoginsTraced;
    hide SessionsTraced, AddsNothing;
    var pending := w.exchanging[state];
    var record := Handoff(credentialID, pending.owner, pending.callback, HashOf(state), w.now, w.now + ttl);
    PutBothAdds(w.store, credentialID, credential, code, record, w.now);
    if PutCredentialAndHandoffIn(w.store, credentialID, credential, code, record, w.now).1.Err? {
      AddsNothingKeeps(w, w'.store);
    } else {
      assert state in w.started && pending.owner == w.started[state];
      hide ExchangesTraced;
      var rest := w'.store.(handoffs := w'.store.handoffs - {HashOf(code)});
      AddsNothingKeeps(w, rest);
      CodeAdded(w, state, code);
      HandoffsGrow(rest.handoffs, w'.store.handoffs, state, code, record, w.handedOff, w.started, w.spentCodes);
    }
  }

  lemma ConsumedHandoff(s: State, code: string, installationID: string, deviceSecret: string, state: string, now: int)
    ensures var (s', outcome) := ConsumeHandoffIn(s, code, installationID, deviceSecret, state, now);
      && AddsNothing(s, s')
      && (outcome.Ok? ==> HashOf(code) in s.handoffs && HashOf(code) !in s'.handoffs)
      && (outcome.Ok? ==> s.handoffs[HashOf(code)].owner == Owner(installationID, HashOf(deviceSecret))
                          && s.handoffs[HashOf(code)].stateHash == HashOf(state))
  {
  }

  lemma CodeSpent(w: World, code: string, handoffs: map<Hash, Handoff>, c: Completion)
    requires Traced(w) && HashOf(code) in w.store.handoffs && HashOf(code) !in handoffs
    requires HandoffsTraced(handoffs, w.handedOff, w.started, w.spentCodes)
    requires w.store.handoffs[HashOf(code)].owner == c.owner
    requires w.store.handoffs[HashOf(code)].stateHash == HashOf(c.state)
    ensures code !in w.spentCodes && code in w.handedOff
    ensures HandoffsTraced(handoffs, w.handedOff, w.started, w.spentCodes + {code})
    ensures CompletionsTraced(w.completing[code := c], w.started, w.handedOff, w.spentCodes + {code})
    ensures LoginsTraced(w.created, w.completing[code := c], w.started, w.handedOff, w.spentCodes + {code})
  {
  }

  lemma PresentKeeps(w: World, code: string, installationID: string, deviceSecret: string, state: string, w': World)
    requires Traced(w) && Step(w, Present(code, installationID, deviceSecret, state), w')
    ensures Traced(w')
  {
    ConsumedHandoff(w.store, code, installationID, deviceSecret, state, w.now);
    hide ConsumeHandoffIn, PendingTraced, ExchangesTraced, CodesTraced, HandoffsTraced, CompletionsTraced, LoginsTraced;
    hide SessionsTraced, AddsNothing;
    AddsNothingKeeps(w, w'.store);
    var outcome := ConsumeHandoffIn(w.store, code, installationID, deviceSecret, state, w.now).1;
    if outcome.Ok? {
      CodeSpent(w, code, w'.store.handoffs,
                Completion(outcome.value, Owner(installationID, HashOf(deviceSecret)), state));
    }
  }

  lemma CompletionLeaves(w: World, code: string)
    requires Traced(w)
    ensures CompletionsTraced(w.completing - {code}, w.started, w.handedOff, w.spentCodes)
    ensures LoginsTraced(w.created, w.completing - {code}, w.started, w.handedOff, w.spentCodes)
  {
  }

  lemma LoginAdded(w: World, code: string, token: string, sessions: map<Hash, Session>)
    requires Traced(w) && code in w.completing && token !in w.issued
    requires SessionsTraced(sessions - {HashOf(token)}, w.created)
    requires HashOf(token) in sessions ==> sessions[HashOf(token)].owner == w.completing[code].owner
    ensures var created := w.created[token := Login(code, w.completing[code].owner, w.completing[code].state)];
      && LoginsTraced(created, w.completing - {code}, w.started, w.handedOff, w.spentCodes)
      && SessionsTraced(sessions, created)
  {
  }

  lemma CompleteKeeps(w: World, code: string, token: string, ttl: int, w': World)
    requires Traced(w) && Step(w, Complete(code, token, ttl), w')
    ensures Traced(w')
  {
    hide CreateSessionIn, PendingTraced, ExchangesTraced, CodesTraced, HandoffsTraced, CompletionsTraced, LoginsTraced;
    hide SessionsTraced, AddsNothing;
    var c := w.completing[code];
    CreateSessionAdds(w.store, c.record.credentialID, c.owner, token, ttl, w.now);
    CompletionLeaves(w, code);
    if CreateSessionIn(w.store, c.record.credentialID, c.owner, token, ttl, w.now).1.Err? {
      AddsNothingKeeps(w, w'.store);
    } else {
      AddsNothingKeeps(w, w'.store.(sessions := w'.store.sessions - {HashOf(token)}));
      LoginAdded(w, code, token, w'.store.sessions);
    }
  }

  lemma ExchangeLeaves(w: World, state: string)
    requires Traced(w)
    ensures ExchangesTraced(w.exchanging - {state}, w.handedOff, w.started, w.spentStates)
  {
  }

  lemma RestKeeps(w: World, action: Action, w': World)
    requires Traced(w) && Step(w, action, w')
    requires !action.Start? && !action.Return? && !action.HandOff? && !action.Present? && !action.Complete?
    ensures Traced(w')
  {
    match action {
      case AbandonExchange(state) => ExchangeLeaves(w, state);
      case AbandonCompletion(code) => CompletionLeaves(w, code);
      case RevokeDevice(_, _) => RevocationsAddNothing(w, action, w'); AddsNothingKeeps(w, w'.store); hide Step;
      case RevokeUser(_, _) => RevocationsAddNothing(w, action, w'); AddsNothingKeeps(w, w'.store); hide Step;
      case _ => OthersAddNothing(w, action, w'); AddsNothingKeeps(w, w'.store); hide Step;
    }
    hide PendingTraced, ExchangesTraced, CodesTraced, HandoffsTraced, CompletionsTraced, LoginsTraced, SessionsTraced;
    hide AddsNothing;
  }

  lemma StepKeepsTraced(w: World, action: Action, w': World)
    requires Traced(w) && Step(w, action, w')
    ensures Traced(w')
  {
    hide *;
    match action {
      case Start(state, record) => StartKeeps(w, state, record, w');
      case Return(state) => ReturnKeeps(w, state, w');
      case HandOff(state, credentialID, credential, code, ttl) =>
        HandOffKeeps(w, state, credentialID, credential, code, ttl, w');
      case Present(code, installationID, deviceSecret, state) =>
        PresentKeeps(w, code, installationID, deviceSecret, state, w');
      case Complete(code, token, ttl) => CompleteKeeps(w, code, token, ttl, w');
      case _ => RestKeeps(w, action, w');
    }
  }

  // ---------------------------------------------------------------- runs

  lemma StepKeepsValid(w: World, action: Action, w': World)
    requires Valid(w.store) && Step(w, action, w')
    ensures Valid(w'.store)
  {
    hide Valid, PutPendingIn, ConsumePendingIn, PutCredentialAndHandoffIn, ConsumeHandoffIn, CreateSessionIn;
    hide PutCredentialIn, DeleteIfUnused;
    hide ResolveSessionIn, DeleteSessionIn, RevokeStep, AccountStep, Between, Tidy, Cleared;
    match action {
      case Start(state, record) => PutPendingKeeps(w.store, state, record, w.now);
      case Return(state) => ConsumePendingKeeps(w.store, state, w.now);
      case HandOff(state, credentialID, credential, code, ttl) =>
        var p := w.exchanging[state];
        PutBothKeeps(w.store, credentialID, credential, code,
                     Handoff(credentialID, p.owner, p.callback, HashOf(state), w.now, w.now + ttl), w.now);
      case Present(code, installationID, deviceSecret, state) =>
        ConsumeHandoffKeeps(w.store, code, installationID, deviceSecret, state, w.now);
      case Complete(code, token, ttl) =>
        var c := w.completing[code];
        CreateSessionKeeps(w.store, c.record.credentialID, c.owner, token, ttl, w.now);
      case Refresh(credentialID, credential) => PutCredentialKeeps(w.store, credentialID, credential);
      case DropUnused(credentialID) => DeleteIfUnusedKeeps(w.store, credentialID);
      case Resolve(token, owner, renewal) => ResolveSessionKeeps(w.store, token, owner, renewal, w.now);
      case Logout(token, owner) => DeleteSessionKeeps(w.store, token, owner);
      case RevokeDevice(me, outcome) => RevokeKeeps(w.store, me, w'.store, outcome);
      case RevokeUser(userID, extra) => AccountRevoked(w.store, userID, extra, w'.store);
      case _ =>
    }
  }

  ghost predicate IsRun(worlds: seq<World>, actions: seq<Action>) {
    && |worlds| == |actions| + 1 && worlds[0] == START
    && forall i | 0 <= i < |actions| :: Step(worlds[i], actions[i], worlds[i + 1])
  }

  lemma StartIsSound()
    ensures Valid(START.store) && Traced(START)
  {
  }

  /** Every reachable state of the store keeps its invariant, and every record in it has a history. */
  lemma {:induction false} ReachableIsSound(worlds: seq<World>, actions: seq<Action>, n: nat)
    requires IsRun(worlds, actions) && n <= |actions|
    ensures Valid(worlds[n].store) && Traced(worlds[n])
  {
    hide Step, Valid, Traced;
    if n == 0 {
      StartIsSound();
    } else {
      ReachableIsSound(worlds, actions, n - 1);
      StepKeepsValid(worlds[n - 1], actions[n - 1], worlds[n]);
      StepKeepsTraced(worlds[n - 1], actions[n - 1], worlds[n]);
    }
  }

  /** A session created by a completion goes back to exactly one consumed handoff and one consumed login state, for
      the same device, and the device presented that very state. */
  lemma LoginsGoBack(worlds: seq<World>, actions: seq<Action>, n: nat, token: string)
    requires IsRun(worlds, actions) && n <= |actions| && token in worlds[n].created
    ensures var w := worlds[n];
      var login := w.created[token];
      && login.code in w.spentCodes && login.code in w.handedOff && w.handedOff[login.code] == login.state
      && login.state in w.spentStates && login.state in w.started && w.started[login.state] == login.owner
      && (forall other | other in w.created
                         && (w.created[other].code == login.code || w.created[other].state == login.state) ::
                           other == token)
      && (HashOf(token) in w.store.sessions ==> w.store.sessions[HashOf(token)].owner == login.owner)
  {
    ReachableIsSound(worlds, actions, n);
    hide Step, Valid, PendingTraced, ExchangesTraced, HandoffsTraced, CompletionsTraced;
    var w := worlds[n];
    var login := w.created[token];
    assert Matches(w.started, w.handedOff, w.spentCodes, login.code, login.owner, login.state);
    forall other | other in w.created && w.created[other].state == login.state ensures other == token {
      assert Matches(w.started, w.handedOff, w.spentCodes, w.created[other].code, w.created[other].owner,
                     w.created[other].state);
    }
  }

  /** Sessions come from completions only. */
  lemma SessionsGoBack(worlds: seq<World>, actions: seq<Action>, n: nat, key: Hash)
    requires IsRun(worlds, actions) && n <= |actions| && key in worlds[n].store.sessions
    ensures key.HashOf? && key.secret in worlds[n].created
    ensures worlds[n].store.sessions[key].owner == worlds[n].created[key.secret].owner
  {
    ReachableIsSound(worlds, actions, n);
    hide Step, Valid, PendingTraced, ExchangesTraced, HandoffsTraced, CompletionsTraced, LoginsTraced, CodesTraced;
  }

  lemma StepKeepsHistory(w: World, action: Action, w': World)
    requires Step(w, action, w')
    ensures w.spentStates <= w'.spentStates && w.spentCodes <= w'.spentCodes
  {
  }

  lemma {:induction false} SpentForGood(worlds: seq<World>, actions: seq<Action>, i: nat, j: nat)
    requires IsRun(worlds, actions) && i <= j <= |actions|
    ensures worlds[i].spentStates <= worlds[j].spentStates && worlds[i].spentCodes <= worlds[j].spentCodes
    decreases j
  {
    hide Step;
    if i < j {
      SpentForGood(worlds, actions, i, j - 1);
      StepKeepsHistory(worlds[j - 1], actions[j - 1], worlds[j]);
    }
  }

  predicate Returns(w: World, state: string) {
    ConsumePendingIn(w.store, state, w.now).1.Ok?
  }

  predicate Consumes(w: World, a: Action) {
    a.Present? && ConsumeHandoffIn(w.store, a.code, a.installationID, a.deviceSecret, a.state, w.now).1.Ok?
  }

  lemma AcceptanceSpends(w: World, a: Action, w': World)
    requires Step(w, a, w')
    ensures a.Return? && Returns(w, a.state) ==> a.state in w'.spentStates
    ensures a.Present? && Consumes(w, a) ==> a.code in w'.spentCodes
  {
  }

  lemma SpentIsRefused(w: World, a: Action)
    requires Traced(w)
    ensures a.Return? && a.state in w.spentStates ==> !Returns(w, a.state)
    ensures a.Present? && a.code in w.spentCodes ==> !Consumes(w, a)
  {
  }

  /** No login state and no handoff code is accepted twice in a run. */
  lemma AcceptedOnce(worlds: seq<World>, actions: seq<Action>, i: nat, j: nat)
    requires IsRun(worlds, actions) && i < j < |actions|
    ensures actions[i].Return? && actions[j] == actions[i] && Returns(worlds[i], actions[i].state) ==>
      !Returns(worlds[j], actions[i].state)
    ensures actions[i].Present? && actions[j].Present? && actions[j].code == actions[i].code ==>
      Consumes(worlds[i], actions[i]) ==> !Consumes(worlds[j], actions[j])
  {
    hide Step, Traced, Valid, Returns, Consumes;
    AcceptanceSpends(worlds[i], actions[i], worlds[i + 1]);
    SpentForGood(worlds, actions, i + 1, j);
    ReachableIsSound(worlds, actions, j);
    SpentIsRefused(worlds[j], actions[j]);
  }

  // ---------------------------------------------------------------- who can end a session

  /** The session is there and has not expired. */
  predicate LiveSession(s: State, key: Hash, now: int) {
    key in s.sessions && now <= s.sessions[key].expiresAt
  }

  lemma CreationSpares(s: State, credentialID: string, owner: Owner, token: string, ttl: int, now: int, key: Hash)
    requires LiveSession(s, key, now) && key != HashOf(token)
    requires key !in CreateSessionIn(s, credentialID, owner, token, ttl, now).0.sessions
    ensures SameOwner(s.sessions[key].owner, owner)
  {
  }

  lemma RevocationSpares(s: State, me: Owner, s': State, outcome: Result<nat, AuthError>, key: Hash)
    requires RevokeStep(s, me, s', outcome) && key in s.sessions && key !in s'.sessions
    ensures SameOwner(s.sessions[key].owner, me)
  {
  }

  lemma AccountSpares(s: State, userID: string, extra: set<string>, s': State, key: Hash)
    requires Backed(s) && AccountStep(s, userID, extra, s') && key in s.sessions && key !in s'.sessions
    ensures s.sessions[key].credentialID in s.credentials
    ensures s.credentials[s.sessions[key].credentialID].userID == userID
  {
  }

  /** The device, or the account, that may have asked for the end of a session. */
  predicate EndedBy(w: World, action: Action, session: Session) {
    match action
    case Complete(code, _, _) => code in w.completing && SameOwner(session.owner, w.completing[code].owner)
    case Logout(_, owner) => SameOwner(session.owner, owner)
    case RevokeDevice(me, _) => SameOwner(session.owner, me)
    case RevokeUser(userID, _) => session.credentialID in w.store.credentials
                                  && w.store.credentials[session.credentialID].userID == userID
    case _ => false
  }

  lemma TokenIsNew(w: World, key: Hash, token: string)
    requires Traced(w) && key in w.store.sessions && token !in w.issued
    ensures key != HashOf(token)
  {
  }

  lemma StartSpares(w: World, state: string, record: Pending, key: Hash)
    requires LiveSession(w.store, key, w.now)
    ensures key in PutPendingIn(w.store, state, record, w.now).0.sessions
  {
  }

  lemma HandOffSpares(s: State, id: string, credential: Credential, code: string, record: Handoff, now: int, key: Hash)
    requires LiveSession(s, key, now)
    ensures key in PutCredentialAndHandoffIn(s, id, credential, code, record, now).0.sessions
  {
  }

  lemma RestSpares(w: World, action: Action, w': World, key: Hash)
    requires Step(w, action, w') && LiveSession(w.store, key, w.now)
    requires !action.Start? && !action.HandOff? && !action.Complete? && !action.RevokeDevice? && !action.RevokeUser?
    ensures key in w'.store.sessions || EndedBy(w, action, w.store.sessions[key])
  {
    hide PutPendingIn, PutCredentialAndHandoffIn, CreateSessionIn, RevokeStep, AccountStep, SameOwner, Used;
    hide ResolveSessionIn, DeleteSessionIn;
    match action {
      case Resolve(token, owner, renewal) => ResolveSpares(w.store, token, owner, renewal, w.now, key);
      case Logout(token, owner) => LogoutSpares(w.store, token, owner, key);
      case _ =>
    }
  }

  lemma ResolveSpares(s: State, token: string, owner: Owner, renewal: int, now: int, key: Hash)
    requires LiveSession(s, key, now)
    ensures key in ResolveSessionIn(s, token, owner, renewal, now).0.sessions
  {
  }

  lemma LogoutSpares(s: State, token: string, owner: Owner, key: Hash)
    requires key in s.sessions
    ensures key in DeleteSessionIn(s, token, owner).0.sessions || SameOwner(s.sessions[key].owner, owner)
  {
  }

  lemma LoginSpares(w: World, action: Action, w': World, key: Hash)
    requires Traced(w) && Step(w, action, w') && LiveSession(w.store, key, w.now)
    requires (action.Start? || action.HandOff? || action.Complete?)
    ensures key in w'.store.sessions || EndedBy(w, action, w.store.sessions[key])
  {
    hide Traced, PutPendingIn, PutCredentialAndHandoffIn, CreateSessionIn, ConsumePendingIn, ConsumeHandoffIn;
    hide RevokeStep, AccountStep, SameOwner;
    hide ResolveSessionIn, DeleteSessionIn, DeleteIfUnused;
    match action {
      case Start(state, record) => StartSpares(w, state, record, key);
      case HandOff(state, credentialID, credential, code, ttl) =>
        var p := w.exchanging[state];
        HandOffSpares(w.store, credentialID, credential, code,
                      Handoff(credentialID, p.owner, p.callback, HashOf(state), w.now, w.now + ttl), w.now, key);
      case Complete(code, token, ttl) =>
        TokenIsNew(w, key, token);
        if key !in w'.store.sessions {
          CreationSpares(w.store, w.completing[code].record.credentialID, w.completing[code].owner, token, ttl, w.now,
                         key);
        }
    }
  }

  lemma RevokingSpares(w: World, action: Action, w': World, key: Hash)
    requires Backed(w.store) && Step(w, action, w') && LiveSession(w.store, key, w.now)
    requires (action.RevokeDevice? || action.RevokeUser?)
    ensures key in w'.store.sessions || EndedBy(w, action, w.store.sessions[key])
  {
    hide Backed, PutPendingIn, PutCredentialAndHandoffIn, CreateSessionIn, ConsumePendingIn, ConsumeHandoffIn;
    hide RevokeStep, AccountStep, SameOwner;
    hide ResolveSessionIn, DeleteSessionIn, DeleteIfUnused;
    if key !in w'.store.sessions {
      match action {
        case RevokeDevice(me, outcome) => RevocationSpares(w.store, me, w'.store, outcome, key);
        case RevokeUser(userID, extra) => AccountSpares(w.store, userID, extra, w'.store, key);
      }
    }
  }

  /** A session that has not expired ends only at the hands of the device it belongs to, or with its account. */
  lemma SessionsEndByOwner(worlds: seq<World>, actions: seq<Action>, n: nat, key: Hash)
    requires IsRun(worlds, actions) && n < |actions| && LiveSession(worlds[n].store, key, worlds[n].now)
    ensures key in worlds[n + 1].store.sessions || EndedBy(worlds[n], actions[n], worlds[n].store.sessions[key])
  {
    ReachableIsSound(worlds, actions, n);
    assert Backed(worlds[n].store);
    hide Step, Valid, Traced, Backed, LiveSession, EndedBy;
    match actions[n] {
      case Start(_, _) => LoginSpares(worlds[n], actions[n], worlds[n + 1], key);
      case HandOff(_, _, _, _, _) => LoginSpares(worlds[n], actions[n], worlds[n + 1], key);
      case Complete(_, _, _) => LoginSpares(worlds[n], actions[n], worlds[n + 1], key);
      case RevokeDevice(_, _) => RevokingSpares(worlds[n], actions[n], worlds[n + 1], key);
      case RevokeUser(_, _) => RevokingSpares(worlds[n], actions[n], worlds[n + 1], key);
      case _ => RestSpares(worlds[n], actions[n], worlds[n + 1], key);
    }
  }
}
