/** The login requests as the server handles them; each execution is a sequence of steps of `LoginFlow`. */
module LoginHandlers {
  import opened Wrappers
  import opened AuthState
  import opened AuthRevocation
  import opened AuthStore
  import opened LoginFlow

  datatype Answer<T> = Granted(value: T) | Denied(reason: string)

  /** Starts a login for a device; `state` is a new random value. */
  method StartMobileAuth(store: AuthStore, owner: Owner, callback: string, state: string, ttl: int, now: int,
                         ghost w: World)
    returns (answer: Answer<string>, ghost w': World)
    requires Valid(store.state) && w.store == store.state && w.now == now && state !in w.issued
    modifies store
    ensures Valid(store.state) && w'.store == store.state
    ensures Step(w, Start(state, Pending(owner, callback, now, now + ttl)), w')
    ensures answer.Granted? ==> answer.value == state && state in w'.started && w'.started[state] == owner
    ensures answer.Denied? ==> w'.started == w.started
  {
    hide PutPendingIn, Valid, Tidy;
    var outcome := store.PutPending(state, Pending(owner, callback, now, now + ttl), now);
    w' := w.(store := store.state, issued := w.issued + {state},
             started := if outcome.Ok? then w.started[state := owner] else w.started);
    answer := if outcome.Ok? then Granted(state) else Denied("too many pending OAuth sessions");
  }

  /** The return from the provider: `exchange` is what the provider makes of the code, `code` a new random value. */
  method TwitchOAuthCallback(store: AuthStore, state: string, denied: string, exchange: Option<(string, Credential)>,
                             code: string, ttl: int, now: int, ghost w: World)
    returns (answer: Answer<string>, ghost w1: World, ghost w2: World)
    requires Valid(store.state) && w.store == store.state && w.now == now && code !in w.issued
    modifies store
    ensures Valid(store.state) && w2.store == store.state
    ensures Step(w, Return(state), w1)
    ensures !Returns(w, state) ==> answer.Denied? && w2 == w1
    ensures Returns(w, state) && (denied != "" || exchange.None?) ==>
      answer.Denied? && Step(w1, AbandonExchange(state), w2)
    ensures Returns(w, state) && denied == "" && exchange.Some? ==>
      Step(w1, HandOff(state, exchange.value.0, exchange.value.1, code, ttl), w2)
    ensures answer.Granted? ==>
      Returns(w, state) && answer.value == code && code in w2.handedOff && w2.handedOff[code] == state
  {
    hide ConsumePendingIn, PutCredentialAndHandoffIn, Valid;
    var outcome := store.ConsumePending(state, now);
    if outcome.Err? {
      w1 := w.(store := store.state);
      return Denied("OAuth session is missing or expired"), w1, w1;
    }
    var pending := outcome.value;
    w1 := w.(store := store.state, exchanging := w.exchanging[state := pending],
             spentStates := w.spentStates + {state});
    if denied != "" || exchange.None? {
      w2 := w1.(exchanging := w1.exchanging - {state});
      return Denied(if denied != "" then denied else "oauth_exchange_failed"), w1, w2;
    }
    var (id, credential) := exchange.value;
    var stored := store.PutCredentialAndHandoff(id, credential, code,
                                                Handoff(id, pending.owner, pending.callback, HashOf(state), now,
                                                        now + ttl), now);
    w2 := w1.(store := store.state, exchanging := w1.exchanging - {state}, issued := w1.issued + {code},
              handedOff := if stored.Ok? then w1.handedOff[code := state] else w1.handedOff);
    answer := if stored.Ok? then Granted(code) else Denied("server_storage_failed");
  }

  /** The exchange of a handoff code for a session: `leased` tells whether the provider still honours the credential,
      `token` is a new random value. */
  method CompleteMobileAuth(store: AuthStore, installationID: string, deviceSecret: string, code: string, state: string,
                            leased: bool, token: string, ttl: int, now: int, ghost w: World)
    returns (answer: Answer<string>, ghost w1: World, ghost w2: World)
    requires Valid(store.state) && w.store == store.state && w.now == now && token !in w.issued
    modifies store
    ensures Valid(store.state)
    ensures Step(w, Present(code, installationID, deviceSecret, state), w1)
    ensures !Consumes(w, Present(code, installationID, deviceSecret, state)) ==>
      answer.Denied? && w2 == w1 && store.state == w2.store
    ensures Consumes(w, Present(code, installationID, deviceSecret, state)) ==>
      if leased then Step(w1, Complete(code, token, ttl), w2) else answer.Denied?
                                                                   && Step(w1, AbandonCompletion(code), w2)
    ensures answer.Granted? ==>
      && answer.value == token && w2.store == store.state
      && token in w2.created && w2.created[token].code == code && w2.created[token].state == state
    ensures Consumes(w, Present(code, installationID, deviceSecret, state)) && answer.Denied? ==>
      var handoff := ConsumeHandoffIn(w.store, code, installationID, deviceSecret, state, now).1.value;
      store.state == DeleteIfUnused(w2.store, handoff.credentialID)
  {
    hide ConsumeHandoffIn, CreateSessionIn, Valid, DeleteIfUnused;
    var outcome := store.ConsumeHandoff(code, installationID, deviceSecret, state, now);
    if outcome.Err? {
      w1 := w.(store := store.state);
      return Denied("no handoff"), w1, w1;
    }
    var record := outcome.value;
    var owner := Owner(installationID, HashOf(deviceSecret));
    w1 := w.(store := store.state, spentCodes := w.spentCodes + {code},
             completing := w.completing[code := Completion(record, owner, state)]);
    if !leased {
      w2 := w1.(completing := w1.completing - {code});
      store.DeleteCredentialIfUnused(record.credentialID);
      return Denied("no lease"), w1, w2;
    }
    var session := store.CreateSession(record.credentialID, owner, token, ttl, now);
    w2 := w1.(store := store.state, completing := w1.completing - {code}, issued := w1.issued + {token},
              created := if session.Ok? then w1.created[token := Login(code, owner, state)] else w1.created);
    if session.Err? {
      store.DeleteCredentialIfUnused(record.credentialID);
      return Denied("no session"), w1, w2;
    }
    answer := Granted(token);
  }
}
