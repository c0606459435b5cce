/** The OAuth broker's store: four tables updated in place, deleting while iterating in no particular order. */
module AuthStore {
  import opened Wrappers
  import opened Text
  import opened AuthState
  import opened AuthRevocation

  // ---------------------------------------------------------------- passes over one table

  method Keep<V>(before: map<Hash, V>, keep: V -> bool) returns (after: map<Hash, V>)
    ensures forall key :: key in after <==> key in before && keep(before[key])
    ensures forall key | key in after :: after[key] == before[key]
  {
    after := before;
    var todo := before.Keys;
    while todo != {}
      invariant todo <= before.Keys
      invariant forall key :: key in after <==> key in before && (key in todo || keep(before[key]))
      invariant forall key | key in after :: after[key] == before[key]
    {
      var key :| key in todo;
      todo := todo - {key};
      if !keep(after[key]) {
        after := after - {key};
      }
    }
  }

  method CredentialInUse(sessions: map<Hash, Session>, handoffs: map<Hash, Handoff>, credentialID: string)
    returns (used: bool)
    ensures used == Used(sessions, handoffs, credentialID)
  {
    var todo := sessions.Keys;
    while todo != {}
      invariant todo <= sessions.Keys && forall key | key in sessions && key !in todo ::
        sessions[key].credentialID != credentialID
    {
      var key :| key in todo;
      todo := todo - {key};
      if sessions[key].credentialID == credentialID {
        return true;
      }
    }
    todo := handoffs.Keys;
    while todo != {}
      invariant todo <= handoffs.Keys && forall key | key in handoffs && key !in todo ::
        handoffs[key].credentialID != credentialID
    {
      var key :| key in todo;
      todo := todo - {key};
      if handoffs[key].credentialID == credentialID {
        return true;
      }
    }
    used := false;
  }

  method DropUnused(s: State) returns (credentials: map<string, Credential>)
    ensures credentials == UsedCredentials(s)
  {
    hide Used;
    credentials := s.credentials;
    var todo := s.credentials.Keys;
    while todo != {}
      invariant todo <= s.credentials.Keys
      invariant forall id :: id in credentials <==>
        id in s.credentials && (id in todo || Used(s.sessions, s.handoffs, id))
      invariant forall id | id in credentials :: credentials[id] == s.credentials[id]
    {
      var id :| id in todo;
      todo := todo - {id};
      var used := CredentialInUse(s.sessions, s.handoffs, id);
      if !used {
        credentials := credentials - {id};
      }
    }
  }

  method Cleanup(s: State, now: int) returns (s': State)
    ensures s' == CleanedUp(s, now)
  {
    var pending := Keep(s.pending, (r: Pending) => now <= r.expiresAt);
    var handoffs := Keep(s.handoffs, (r: Handoff) => now <= r.expiresAt);
    var sessions := Keep(s.sessions, (r: Session) => now <= r.expiresAt);
    assert pending == LivePending(s.pending, now) && handoffs == LiveHandoffs(s.handoffs, now)
           && sessions == LiveSessions(s.sessions, now);
    hide LivePending, LiveHandoffs, LiveSessions, UsedCredentials;
    var live := s.(pending := pending, handoffs := handoffs, sessions := sessions);
    var credentials := DropUnused(live);
    s' := live.(credentials := credentials);
  }

  method DropPending(pending: map<Hash, Pending>, owner: Owner) returns (others: map<Hash, Pending>)
    ensures others == PendingOfOthers(pending, owner)
  {
    others := Keep(pending, (r: Pending) => !SameOwner(r.owner, owner));
  }

  method DropHandoffs(handoffs: map<Hash, Handoff>, owner: Owner) returns (others: map<Hash, Handoff>)
    ensures others == HandoffsOfOthers(handoffs, owner)
  {
    others := Keep(handoffs, (r: Handoff) => !SameOwner(r.owner, owner));
  }

  /** Whether another device has an unexpired session of the installation. */
  method FindOtherDevice(sessions: map<Hash, Session>, owner: Owner, now: int) returns (found: bool)
    ensures found == HeldByOtherDevice(sessions, owner, now)
  {
    found := false;
    var todo := sessions.Keys;
    while todo != {}
      invariant todo <= sessions.Keys
      invariant forall key | key in sessions && key !in todo ::
        !(sessions[key].owner.installationID == owner.installationID && now <= sessions[key].expiresAt
          && !HashEqual(sessions[key].owner.deviceHash, owner.deviceHash))
    {
      var key :| key in todo;
      todo := todo - {key};
      var r := sessions[key];
      if r.owner.installationID == owner.installationID && now <= r.expiresAt
         && !HashEqual(r.owner.deviceHash, owner.deviceHash) {
        return true;
      }
    }
  }

  /** Removes the records of one installation until one with another device secret turns up. */
  method RevokeRecords<V>(before: map<Hash, V>, ownerOf: V -> Owner, me: Owner)
    returns (after: map<Hash, V>, refused: bool)
    ensures refused == HasForeign(before, ownerOf, me)
    ensures refused ==> Interrupted(before, after, ownerOf, me)
    ensures !refused ==> after == WithoutMine(before, ownerOf, me)
  {
    after, refused := before, false;
    var todo := before.Keys;
    while todo != {}
      invariant todo <= before.Keys
      invariant forall key | key in before && key !in todo :: !Foreign(ownerOf(before[key]), me)
      invariant forall key :: key in after <==> key in before && (key in todo || !Mine(ownerOf(before[key]), me))
      invariant forall key | key in after :: after[key] == before[key]
    {
      var key :| key in todo;
      var owner := ownerOf(before[key]);
      if owner.installationID == me.installationID {
        if !HashEqual(owner.deviceHash, me.deviceHash) {
          return after, true;
        }
        after := after - {key};
      }
      todo := todo - {key};
    }
  }

  method CollectCredentials(s: State, userID: string) returns (ids: set<string>)
    ensures ids == CredentialsOf(s, userID)
  {
    ids := {};
    var todo := s.credentials.Keys;
    while todo != {}
      invariant todo <= s.credentials.Keys
      invariant forall id :: id in ids <==> id in s.credentials && id !in todo && s.credentials[id].userID == userID
    {
      var id :| id in todo;
      todo := todo - {id};
      if s.credentials[id].userID == userID {
        ids := ids + {id};
      }
    }
  }

  method RevokeSessions(before: map<Hash, Session>, ids: set<string>, extra: set<string>)
    returns (after: map<Hash, Session>, known: set<string>)
    ensures after == SessionsWithout(before, ids) && known == extra + SessionInstallations(before, ids)
  {
    after, known := before, extra;
    var todo := before.Keys;
    while todo != {}
      invariant todo <= before.Keys
      invariant forall key :: key in after <==> key in before && (key in todo || before[key].credentialID !in ids)
      invariant forall key | key in after :: after[key] == before[key]
      invariant extra <= known <= extra + SessionInstallations(before, ids)
      invariant forall key | key in before && key !in todo && before[key].credentialID in ids ::
        before[key].owner.installationID in known
    {
      var key :| key in todo;
      todo := todo - {key};
      if before[key].credentialID in ids {
        known := known + {before[key].owner.installationID};
        after := after - {key};
      }
    }
  }

  method RevokeHandoffs(before: map<Hash, Handoff>, ids: set<string>, known: set<string>)
    returns (after: map<Hash, Handoff>, installations: set<string>)
    ensures HandoffPass(before, after, ids, known) && installations == known + HandoffInstallations(before, ids)
  {
    after, installations := before, known;
    var todo := before.Keys;
    while todo != {}
      invariant todo <= before.Keys
      invariant forall key | key in after :: key in before && after[key] == before[key]
      invariant forall key | key in todo :: key in after
      invariant known <= installations <= known + HandoffInstallations(before, ids)
      invariant forall key | key in before && key !in todo
                             && (before[key].credentialID in ids || before[key].owner.installationID in known) ::
                               key !in after
      invariant forall key | key in before && key !in after ::
        before[key].owner.installationID in known + HandoffInstallations(before, ids)
      invariant forall key | key in before && key !in todo && before[key].credentialID in ids ::
        before[key].owner.installationID in installations
    {
      var key :| key in todo;
      todo := todo - {key};
      if before[key].credentialID in ids || before[key].owner.installationID in installations {
        installations := installations + {before[key].owner.installationID};
        after := after - {key};
      }
    }
  }

  function Trimmed(extra: seq<string>): set<string> {
    set i | 0 <= i < |extra| && TrimSpace(extra[i]) != "" :: TrimSpace(extra[i])
  }

  lemma TrimmedIff(extra: seq<string>, id: string)
    ensures id in Trimmed(extra) <==> id != "" && exists raw | raw in extra :: TrimSpace(raw) == id
  {
    hide TrimSpace;
    if raw :| raw in extra && TrimSpace(raw) == id {
      var i :| 0 <= i < |extra| && extra[i] == raw;
    }
  }

  method TrimAll(extra: seq<string>) returns (installations: set<string>)
    ensures installations == Trimmed(extra)
  {
    hide TrimSpace;
    installations := {};
    for i := 0 to |extra|
      invariant installations == set j | 0 <= j < i && TrimSpace(extra[j]) != "" :: TrimSpace(extra[j])
    {
      var trimmed := TrimSpace(extra[i]);
      if trimmed != "" {
        installations := installations + {trimmed};
      }
    }
  }

  // ---------------------------------------------------------------- the store

  class AuthStore {
    var state: State

    constructor ()
      ensures state == EMPTY
    {
      state := EMPTY;
    }

    method PutPending(secret: string, record: Pending, now: int) returns (outcome: Result<(), AuthError>)
      requires Valid(state)
      modifies this
      ensures (state, outcome) == PutPendingIn(old(state), secret, record, now)
      ensures Valid(state) && Tidy(state)
    {
      PutPendingKeeps(state, secret, record, now);
      hide Valid, Tidy, CleanedUp, PendingOfOthers;
      state := Cleanup(state, now);
      var others := DropPending(state.pending, record.owner);
      state := state.(pending := others);
      if |state.pending| >= MAX_PENDING {
        return Err(Capacity);
      }
      state := state.(pending := state.pending[HashOf(secret) := record]);
      outcome := Ok(());
    }

    method ConsumePending(secret: string, now: int) returns (outcome: Result<Pending, AuthError>)
      requires Valid(state)
      modifies this
      ensures (state, outcome) == ConsumePendingIn(old(state), secret, now)
      ensures Valid(state)
    {
      ConsumePendingKeeps(state, secret, now);
      hide Valid;
      var key := HashOf(secret);
      if key !in state.pending {
        return Err(NotFound);
      }
      var record := state.pending[key];
      state := state.(pending := state.pending - {key});
      outcome := if now > record.expiresAt then Err(Expired) else Ok(record);
    }

    /** The caller has stored the credential before. */
    method PutHandoff(code: string, record: Handoff, now: int) returns (outcome: Result<(), AuthError>)
      requires Valid(state) && record.credentialID in state.credentials
      modifies this
      ensures (state, outcome) == PutHandoffIn(old(state), code, record, now)
      ensures Valid(state) && Tidy(state)
    {
      PutHandoffKeeps(state, code, record, now);
      hide Valid, Tidy, CleanedUp, HandoffsOfOthers;
      var key := HashOf(code);
      var others := DropHandoffs(state.handoffs, record.owner);
      state := Cleanup(state.(handoffs := others[key := record]), now);
      outcome := Ok(());
      if |state.handoffs| > MAX_HANDOFFS {
        state := Cleanup(state.(handoffs := state.handoffs - {key}), now);
        outcome := Err(Capacity);
      }
    }

    method ConsumeHandoff(code: string, installationID: string, deviceSecret: string, secret: string, now: int)
      returns (outcome: Result<Handoff, AuthError>)
      requires Valid(state)
      modifies this
      ensures (state, outcome) == ConsumeHandoffIn(old(state), code, installationID, deviceSecret, secret, now)
      ensures Valid(state)
    {
      ConsumeHandoffKeeps(state, code, installationID, deviceSecret, secret, now);
      hide Valid;
      var key := HashOf(code);
      if key !in state.handoffs {
        return Err(NotFound);
      }
      var record := state.handoffs[key];
      if now > record.expiresAt {
        state := state.(handoffs := state.handoffs - {key});
        return Err(Expired);
      }
      if record.owner.installationID != installationID || !HashEqual(record.owner.deviceHash, HashOf(deviceSecret)) {
        return Err(DeviceMismatch);
      }
      if !HashEqual(record.stateHash, HashOf(secret)) {
        return Err(StateMismatch);
      }
      state := state.(handoffs := state.handoffs - {key});
      outcome := Ok(record);
    }

    method PutCredential(id: string, credential: Credential)
      requires Valid(state)
      modifies this
      ensures state == PutCredentialIn(old(state), id, credential) && Valid(state)
    {
      PutCredentialKeeps(state, id, credential);
      state := state.(credentials := state.credentials[id := credential]);
    }

    method PutCredentialAndHandoff(id: string, credential: Credential, code: string, record: Handoff, now: int)
      returns (outcome: Result<(), AuthError>)
      requires Valid(state)
      modifies this
      ensures (state, outcome) == PutCredentialAndHandoffIn(old(state), id, credential, code, record, now)
      ensures Valid(state)
    {
      hide Valid, PutHandoffIn;
      if id == "" || record.credentialID != id {
        return Err(Inconsistent);
      }
      PutCredential(id, credential);
      outcome := PutHandoff(code, record, now);
    }

    method CreateSession(credentialID: string, owner: Owner, token: string, ttl: int, now: int)
      returns (outcome: Result<(string, int), AuthError>)
      requires Valid(state)
      modifies this
      ensures (state, outcome) == CreateSessionIn(old(state), credentialID, owner, token, ttl, now)
      ensures Valid(state)
    {
      CreateSessionKeeps(state, credentialID, owner, token, ttl, now);
      hide Valid, CleanedUp, HeldByOtherDevice;
      if credentialID !in state.credentials {
        return Err(NotFound);
      }
      var held := FindOtherDevice(state.sessions, owner, now);
      if held {
        return Err(DeviceMismatch);
      }
      var others := Keep(state.sessions,
                         (r: Session) => !(now > r.expiresAt || r.owner.installationID == owner.installationID));
      assert others == OtherSessions(state.sessions, owner.installationID, now);
      hide OtherSessions;
      state := state.(sessions := others);
      if |state.sessions| >= MAX_SESSIONS {
        return Err(Capacity);
      }
      var record := Session(credentialID, owner, now, now + ttl);
      state := Cleanup(state.(sessions := state.sessions[HashOf(token) := record]), now);
      outcome := Ok((token, now + ttl));
    }

    method DeleteCredentialIfUnused(credentialID: string)
      requires Valid(state)
      modifies this
      ensures state == DeleteIfUnused(old(state), credentialID) && Valid(state)
    {
      DeleteIfUnusedKeeps(state, credentialID);
      hide Valid, Used;
      var used := CredentialInUse(state.sessions, state.handoffs, credentialID);
      if !used {
        state := state.(credentials := state.credentials - {credentialID});
      }
    }

    method ResolveSession(token: string, owner: Owner, renewal: int, now: int)
      returns (outcome: Result<Session, AuthError>)
      requires Valid(state)
      modifies this
      ensures (state, outcome) == ResolveSessionIn(old(state), token, owner, renewal, now)
      ensures Valid(state)
    {
      ResolveSessionKeeps(state, token, owner, renewal, now);
      var key := HashOf(token);
      DropSession(state, key);
      assert Valid(state.(sessions := state.sessions - {key}));
      hide Valid, DeleteIfUnused;
      if key !in state.sessions {
        return Err(NotFound);
      }
      var record := state.sessions[key];
      if now > record.expiresAt {
        state := state.(sessions := state.sessions - {key});
        DeleteCredentialIfUnused(record.credentialID);
        return Err(Expired);
      }
      if record.owner.installationID != owner.installationID || !HashEqual(record.owner.deviceHash, owner.deviceHash) {
        return Err(DeviceMismatch);
      }
      if renewal > 0 && record.expiresAt < now + renewal / 2 {
        record := record.(expiresAt := now + renewal);
        state := state.(sessions := state.sessions[key := record]);
      }
      outcome := Ok(record);
    }

    method DeleteSession(token: string, owner: Owner) returns (outcome: Result<(), AuthError>)
      requires Valid(state)
      modifies this
      ensures (state, outcome) == DeleteSessionIn(old(state), token, owner)
      ensures Valid(state)
    {
      var key := HashOf(token);
      DropSession(state, key);
      assert Valid(state.(sessions := state.sessions - {key}));
      hide Valid, DeleteIfUnused;
      if key !in state.sessions {
        return Err(NotFound);
      }
      var record := state.sessions[key];
      if record.owner.installationID != owner.installationID || !HashEqual(record.owner.deviceHash, owner.deviceHash) {
        return Err(DeviceMismatch);
      }
      state := state.(sessions := state.sessions - {key});
      DeleteCredentialIfUnused(record.credentialID);
      outcome := Ok(());
    }

    method RevokeInstallation(me: Owner) returns (outcome: Result<nat, AuthError>)
      requires Valid(state)
      modifies this
      ensures RevokeStep(old(state), me, state, outcome) && Valid(state) && Between(old(state), me, state)
    {
      hide Valid, WithoutMine, HasForeign, Interrupted, UsedCredentials, Between, Tidy;
      ghost var before := state;
      WithoutMineSub(state.sessions, SessionOwner, me);
      SubSize(WithoutMine(state.sessions, SessionOwner, me), state.sessions);
      var count := |state.sessions|;
      var sessions, refused := RevokeRecords(state.sessions, SessionOwner, me);
      state := state.(sessions := sessions);
      if refused {
        RevokeKeeps(before, me, state, Err(DeviceMismatch));
        return Err(DeviceMismatch);
      }
      var pending;
      pending, refused := RevokeRecords(state.pending, PendingOwner, me);
      state := state.(pending := pending);
      if refused {
        RevokeKeeps(before, me, state, Err(DeviceMismatch));
        return Err(DeviceMismatch);
      }
      var handoffs;
      handoffs, refused := RevokeRecords(state.handoffs, HandoffOwner, me);
      state := state.(handoffs := handoffs);
      if refused {
        RevokeKeeps(before, me, state, Err(DeviceMismatch));
        return Err(DeviceMismatch);
      }
      var credentials := DropUnused(state);
      state := state.(credentials := credentials);
      outcome := Ok(count - |state.sessions|);
      RevokeKeeps(before, me, state, outcome);
    }

    method RevokeAccount(user: string, extra: seq<string>) returns (outcome: Result<(), AuthError>)
      requires Valid(state)
      modifies this
      ensures TrimSpace(user) == "" ==> outcome == Err(NotFound) && state == old(state)
      ensures TrimSpace(user) != "" ==>
        outcome == Ok(()) && AccountStep(old(state), TrimSpace(user), Trimmed(extra), state) && Tidy(state)
      ensures Valid(state)
    {
      hide Valid, UsedCredentials, HandoffPass, SessionsWithout, HandoffInstallations, SessionInstallations;
      hide CredentialsOf, Tidy, TrimSpace, Trimmed;
      var userID := TrimSpace(user);
      if userID == "" {
        return Err(NotFound);
      }
      ghost var before := state;
      var ids := CollectCredentials(state, userID);
      var known := TrimAll(extra);
      var sessions, handoffs, installations;
      sessions, known := RevokeSessions(state.sessions, ids, known);
      handoffs, installations := RevokeHandoffs(state.handoffs, ids, known);
      var pending := Keep(state.pending, (r: Pending) => r.owner.installationID !in installations);
      assert pending == PendingWithout(state.pending, installations);
      hide PendingWithout;
      state := State(pending, handoffs, sessions, state.credentials - ids);
      var credentials := DropUnused(state);
      state := state.(credentials := credentials);
      AccountRevoked(before, userID, Trimmed(extra), state);
      outcome := Ok(());
    }
  }
}
