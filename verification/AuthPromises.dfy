/** What the answers of the store promise about later requests. */
module AuthPromises {
  import opened Wrappers
  import opened AuthState

  predicate Hashed(owner: Owner) {
    owner.deviceHash.HashOf?
  }

  // ---------------------------------------------------------------- logins under way

  /** A login state that was accepted comes back with its record until it expires, and only once. */
  lemma PendingComesBack(s: State, state: string, record: Pending, now: int, later: int)
    requires PutPendingIn(s, state, record, now).1 == Ok(())
    ensures var (after, answer) := ConsumePendingIn(PutPendingIn(s, state, record, now).0, state, later);
      && answer == (if later <= record.expiresAt then Ok(record) else Err(Expired))
      && ConsumePendingIn(after, state, later) == (after, Err(NotFound))
  {
  }

  // ---------------------------------------------------------------- handoffs

  lemma FreshHandoffStays(s: State, code: string, record: Handoff, now: int)
    requires PutHandoffIn(s, code, record, now).1 == Ok(()) && now <= record.expiresAt
    ensures var s' := PutHandoffIn(s, code, record, now).0;
      HashOf(code) in s'.handoffs && s'.handoffs[HashOf(code)] == record
  {
  }

  /** A handoff that was accepted is given, until it expires, to the device it was made for that presents its state, and
      only once. Other devices and other states are refused and do not use it up. */
  lemma HandoffComesBack(s: State, code: string, record: Handoff, now: int, installationID: string,
                         deviceSecret: string, state: string, later: int)
    requires PutHandoffIn(s, code, record, now).1 == Ok(()) && now <= record.expiresAt
    ensures var s' := PutHandoffIn(s, code, record, now).0;
      var (after, answer) := ConsumeHandoffIn(s', code, installationID, deviceSecret, state, later);
      var me := Owner(installationID, HashOf(deviceSecret));
      if later > record.expiresAt then answer == Err(Expired) && HashOf(code) !in after.handoffs
      else if record.owner != me then answer == Err(DeviceMismatch) && after == s'
      else if record.stateHash != HashOf(state) then answer == Err(StateMismatch) && after == s'
      else answer == Ok(record) && HashOf(code) !in after.handoffs
  {
    FreshHandoffStays(s, code, record, now);
    hide PutHandoffIn;
  }

  // ---------------------------------------------------------------- sessions

  lemma CreatedIsThere(s: State, credentialID: string, owner: Owner, token: string, ttl: int, now: int)
    requires CreateSessionIn(s, credentialID, owner, token, ttl, now).1.Ok? && ttl >= 0
    ensures var (s', answer) := CreateSessionIn(s, credentialID, owner, token, ttl, now);
      && answer == Ok((token, now + ttl)) && HashOf(token) in s'.sessions
      && s'.sessions[HashOf(token)] == Session(credentialID, owner, now, now + ttl)
  {
  }

  /** A created session resolves for its device until the time that was answered, and not after it. */
  lemma CreatedResolves(s: State, credentialID: string, owner: Owner, token: string, ttl: int, now: int, later: int)
    requires Hashed(owner) && ttl >= 0 && CreateSessionIn(s, credentialID, owner, token, ttl, now).1.Ok?
    ensures var (s', answer) := CreateSessionIn(s, credentialID, owner, token, ttl, now);
      var until := answer.value.1;
      && answer.value.0 == token && until == now + ttl
      && ResolveSessionIn(s', token, owner, 0, later).1
         == (if later <= until then Ok(Session(credentialID, owner, now, until)) else Err(Expired))
  {
    CreatedIsThere(s, credentialID, owner, token, ttl, now);
    hide CreateSessionIn;
  }

  /** Another device, or one without a hash, gets nothing for the token, and the session stays as it is. */
  lemma OthersAreRefused(s: State, token: string, owner: Owner, renewal: int, now: int)
    requires HashOf(token) in s.sessions && now <= s.sessions[HashOf(token)].expiresAt
    requires s.sessions[HashOf(token)].owner != owner || !Hashed(owner)
    ensures ResolveSessionIn(s, token, owner, renewal, now) == (s, Err(DeviceMismatch))
    ensures DeleteSessionIn(s, token, owner) == (s, Err(DeviceMismatch))
  {
  }

  /** Resolving never shortens a session. With renewal it leaves at least half of the renewal time, and it renews,
      for the whole time, only a session that has less than that left. What is answered is what is stored. */
  lemma RenewalKeepsHalf(s: State, token: string, owner: Owner, renewal: int, now: int)
    requires ResolveSessionIn(s, token, owner, renewal, now).1.Ok?
    ensures var (s', answer) := ResolveSessionIn(s, token, owner, renewal, now);
      var key, session := HashOf(token), answer.value;
      && key in s.sessions && s' == s.(sessions := s.sessions[key := session])
      && session == s.sessions[key].(expiresAt := session.expiresAt)
      && now <= s.sessions[key].expiresAt <= session.expiresAt
      && (renewal > 0 ==> session.expiresAt >= now + renewal / 2)
      && (session.expiresAt != s.sessions[key].expiresAt ==>
            session.expiresAt == now + renewal && s.sessions[key].expiresAt < now + renewal / 2)
  {
  }

  /** After a logout the token is worth nothing, and the credential is there exactly if something else uses it. */
  lemma LoggedOut(s: State, token: string, owner: Owner, other: Owner, renewal: int, now: int)
    requires DeleteSessionIn(s, token, owner).1.Ok?
    ensures var s' := DeleteSessionIn(s, token, owner).0;
      && s'.sessions == s.sessions - {HashOf(token)} && s'.pending == s.pending && s'.handoffs == s.handoffs
      && ResolveSessionIn(s', token, other, renewal, now) == (s', Err(NotFound))
      && var id := s.sessions[HashOf(token)].credentialID;
         && (id in s'.credentials <==> id in s.credentials && Used(s'.sessions, s'.handoffs, id))
         && s'.credentials - {id} == s.credentials - {id}
  {
  }

  /** A session is created exactly if the credential is stored, no other device has an unexpired session of the
      installation, and other installations leave room; expired sessions count for nothing. */
  lemma CreatedIff(s: State, credentialID: string, owner: Owner, token: string, ttl: int, now: int)
    requires Hashed(owner)
    ensures CreateSessionIn(s, credentialID, owner, token, ttl, now).1.Ok? <==>
      && credentialID in s.credentials
      && (forall key | key in s.sessions && s.sessions[key].owner.installationID == owner.installationID
                       && now <= s.sessions[key].expiresAt :: s.sessions[key].owner == owner)
      && |set key | key in s.sessions && now <= s.sessions[key].expiresAt
                    && s.sessions[key].owner.installationID != owner.installationID| < MAX_SESSIONS
  {
    var others := OtherSessions(s.sessions, owner.installationID, now);
    assert others.Keys == set key | key in s.sessions && now <= s.sessions[key].expiresAt
                                    && s.sessions[key].owner.installationID != owner.installationID;
  }
}
