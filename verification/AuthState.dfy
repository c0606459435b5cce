/** The records of the OAuth broker and what each operation makes of them. Hashes are symbolic: equal only for equal
    secrets. */
module AuthState {
  import Sets
  import opened Wrappers

  const MAX_PENDING := 10_000
  const MAX_HANDOFFS := 10_000
  const MAX_SESSIONS := 100_000

  datatype Hash = NoHash | HashOf(secret: string)

  /** The comparison in constant time, which no missing hash passes. */
  predicate HashEqual(a: Hash, b: Hash) {
    a.HashOf? && a == b
  }

  /** The device an authentication record is bound to. */
  datatype Owner = Owner(installationID: string, deviceHash: Hash)

  datatype Pending = Pending(owner: Owner, callback: string, createdAt: int, expiresAt: int)
  datatype Handoff = Handoff(credentialID: string, owner: Owner, callback: string, stateHash: Hash, createdAt: int,
                             expiresAt: int)
  datatype Session = Session(credentialID: string, owner: Owner, createdAt: int, expiresAt: int)
  datatype Credential = Credential(userID: string, login: string, tokens: string)

  datatype State = State(
    pending: map<Hash, Pending>, handoffs: map<Hash, Handoff>, sessions: map<Hash, Session>,
    credentials: map<string, Credential>)

  datatype AuthError = NotFound | Expired | DeviceMismatch | StateMismatch | Capacity | Inconsistent

  const EMPTY := State(map[], map[], map[], map[])

  predicate SameOwner(a: Owner, b: Owner) {
    a.installationID == b.installationID && HashEqual(a.deviceHash, b.deviceHash)
  }

  // ---------------------------------------------------------------- the invariant

  predicate OnePending(pending: map<Hash, Pending>) {
    forall a, b | a in pending && b in pending && SameOwner(pending[a].owner, pending[b].owner) :: a == b
  }

  predicate OneHandoff(handoffs: map<Hash, Handoff>) {
    forall a, b | a in handoffs && b in handoffs && SameOwner(handoffs[a].owner, handoffs[b].owner) :: a == b
  }

  predicate OneSession(sessions: map<Hash, Session>) {
    forall a, b | a in sessions && b in sessions
                  && sessions[a].owner.installationID == sessions[b].owner.installationID :: a == b
  }

  predicate Used(sessions: map<Hash, Session>, handoffs: map<Hash, Handoff>, credentialID: string) {
    || (exists key | key in sessions :: sessions[key].credentialID == credentialID)
    || (exists key | key in handoffs :: handoffs[key].credentialID == credentialID)
  }

  predicate SessionsBacked(sessions: map<Hash, Session>, credentials: set<string>) {
    forall key | key in sessions :: sessions[key].credentialID in credentials
  }

  predicate HandoffsBacked(handoffs: map<Hash, Handoff>, credentials: set<string>) {
    forall key | key in handoffs :: handoffs[key].credentialID in credentials
  }

  /** Every session and handoff points at a stored credential. */
  predicate Backed(s: State) {
    SessionsBacked(s.sessions, s.credentials.Keys) && HandoffsBacked(s.handoffs, s.credentials.Keys)
  }

  predicate Linked(s: State) {
    OnePending(s.pending) && OneHandoff(s.handoffs) && OneSession(s.sessions) && Backed(s)
  }

  /** Every reachable state: one login under way and one handoff for each device, one session for each installation,
      every credential in use stored, and all tables within their limits. */
  predicate Valid(s: State) {
    Linked(s) && |s.pending| <= MAX_PENDING && |s.handoffs| <= MAX_HANDOFFS && |s.sessions| <= MAX_SESSIONS
  }

  /** Exactly the credentials that are in use are stored. */
  predicate Tidy(s: State) {
    Backed(s) && forall id | id in s.credentials :: Used(s.sessions, s.handoffs, id)
  }

  // ---------------------------------------------------------------- clean-up

  function LivePending(pending: map<Hash, Pending>, now: int): map<Hash, Pending> {
    map key | key in pending && now <= pending[key].expiresAt :: pending[key]
  }

  function LiveHandoffs(handoffs: map<Hash, Handoff>, now: int): map<Hash, Handoff> {
    map key | key in handoffs && now <= handoffs[key].expiresAt :: handoffs[key]
  }

  function LiveSessions(sessions: map<Hash, Session>, now: int): map<Hash, Session> {
    map key | key in sessions && now <= sessions[key].expiresAt :: sessions[key]
  }

  function UsedCredentials(s: State): map<string, Credential> {
    map id | id in s.credentials && Used(s.sessions, s.handoffs, id) :: s.credentials[id]
  }

  function WithoutUnused(s: State): State {
    s.(credentials := UsedCredentials(s))
  }

  function CleanedUp(s: State, now: int): State {
    WithoutUnused(s.(pending := LivePending(s.pending, now), handoffs := LiveHandoffs(s.handoffs, now),
                     sessions := LiveSessions(s.sessions, now)))
  }

  // ---------------------------------------------------------------- the operations

  function PendingOfOthers(pending: map<Hash, Pending>, owner: Owner): map<Hash, Pending> {
    map key | key in pending && !SameOwner(pending[key].owner, owner) :: pending[key]
  }

  function HandoffsOfOthers(handoffs: map<Hash, Handoff>, owner: Owner): map<Hash, Handoff> {
    map key | key in handoffs && !SameOwner(handoffs[key].owner, owner) :: handoffs[key]
  }

  function PutPendingIn(s: State, state: string, record: Pending, now: int): (State, Result<(), AuthError>) {
    var cleaned := CleanedUp(s, now);
    var others := PendingOfOthers(cleaned.pending, record.owner);
    if |others| >= MAX_PENDING then (cleaned.(pending := others), Err(Capacity))
    else (cleaned.(pending := others[HashOf(state) := record]), Ok(()))
  }

  function ConsumePendingIn(s: State, state: string, now: int): (State, Result<Pending, AuthError>) {
    var key := HashOf(state);
    if key !in s.pending then (s, Err(NotFound))
    else
      var record := s.pending[key];
      (s.(pending := s.pending - {key}), if now > record.expiresAt then Err(Expired) else Ok(record))
  }

  function PutHandoffIn(s: State, code: string, record: Handoff, now: int): (State, Result<(), AuthError>) {
    var key := HashOf(code);
    var added := CleanedUp(s.(handoffs := HandoffsOfOthers(s.handoffs, record.owner)[key := record]), now);
    if |added.handoffs| > MAX_HANDOFFS then (CleanedUp(added.(handoffs := added.handoffs - {key}), now), Err(Capacity))
    else (added, Ok(()))
  }

  function ConsumeHandoffIn(s: State, code: string, installationID: string, deviceSecret: string, state: string,
                            now: int): (State, Result<Handoff, AuthError>) {
    var key := HashOf(code);
    if key !in s.handoffs then (s, Err(NotFound))
    else
      var record := s.handoffs[key];
      if now > record.expiresAt then (s.(handoffs := s.handoffs - {key}), Err(Expired))
      else if !SameOwner(record.owner, Owner(installationID, HashOf(deviceSecret))) then (s, Err(DeviceMismatch))
      else if !HashEqual(record.stateHash, HashOf(state)) then (s, Err(StateMismatch))
      else (s.(handoffs := s.handoffs - {key}), Ok(record))
  }

  function PutCredentialIn(s: State, id: string, credential: Credential): State {
    s.(credentials := s.credentials[id := credential])
  }

  function PutCredentialAndHandoffIn(s: State, id: string, credential: Credential, code: string, record: Handoff,
                                     now: int): (State, Result<(), AuthError>) {
    if id == "" || record.credentialID != id then (s, Err(Inconsistent))
    else PutHandoffIn(PutCredentialIn(s, id, credential), code, record, now)
  }

  predicate HeldByOtherDevice(sessions: map<Hash, Session>, owner: Owner, now: int) {
    exists key | key in sessions ::
      sessions[key].owner.installationID == owner.installationID && now <= sessions[key].expiresAt
      && !HashEqual(sessions[key].owner.deviceHash, owner.deviceHash)
  }

  function OtherSessions(sessions: map<Hash, Session>, installationID: string, now: int): map<Hash, Session> {
    map key | key in sessions && now <= sessions[key].expiresAt
              && sessions[key].owner.installationID != installationID :: sessions[key]
  }

  function CreateSessionIn(s: State, credentialID: string, owner: Owner, token: string, ttl: int,
                           now: int): (State, Result<(string, int), AuthError>) {
    if credentialID !in s.credentials then (s, Err(NotFound))
    else if HeldByOtherDevice(s.sessions, owner, now) then (s, Err(DeviceMismatch))
    else
      var others := OtherSessions(s.sessions, owner.installationID, now);
      if |others| >= MAX_SESSIONS then (s.(sessions := others), Err(Capacity))
      else
        (CleanedUp(s.(sessions := others[HashOf(token) := Session(credentialID, owner, now, now + ttl)]), now),
         Ok((token, now + ttl)))
  }

  function DeleteIfUnused(s: State, credentialID: string): State {
    if Used(s.sessions, s.handoffs, credentialID) then s else s.(credentials := s.credentials - {credentialID})
  }

  function ResolveSessionIn(s: State, token: string, owner: Owner, renewal: int,
                            now: int): (State, Result<Session, AuthError>) {
    var key := HashOf(token);
    if key !in s.sessions then (s, Err(NotFound))
    else
      var record := s.sessions[key];
      if now > record.expiresAt then (DeleteIfUnused(s.(sessions := s.sessions - {key}), record.credentialID),
                                      Err(Expired))
      else if !SameOwner(record.owner, owner) then (s, Err(DeviceMismatch))
      else if renewal > 0 && record.expiresAt < now + renewal / 2 then
        var renewed := record.(expiresAt := now + renewal);
        (s.(sessions := s.sessions[key := renewed]), Ok(renewed))
      else (s, Ok(record))
  }

  function DeleteSessionIn(s: State, token: string, owner: Owner): (State, Result<(), AuthError>) {
    var key := HashOf(token);
    if key !in s.sessions then (s, Err(NotFound))
    else if !SameOwner(s.sessions[key].owner, owner) then (s, Err(DeviceMismatch))
    else (DeleteIfUnused(s.(sessions := s.sessions - {key}), s.sessions[key].credentialID), Ok(()))
  }

  // ---------------------------------------------------------------- tables with fewer records

  ghost predicate Sub<V>(a: map<Hash, V>, b: map<Hash, V>) {
    a.Keys <= b.Keys && forall key | key in a :: a[key] == b[key]
  }

  lemma SubSize<V>(a: map<Hash, V>, b: map<Hash, V>)
    requires Sub(a, b)
    ensures |a| <= |b|
  {
    Sets.SubsetSize(a.Keys, b.Keys);
  }

  lemma SubPending(a: map<Hash, Pending>, b: map<Hash, Pending>)
    requires OnePending(b) && Sub(a, b)
    ensures OnePending(a) && |a| <= |b|
  {
    SubSize(a, b);
  }

  lemma SubHandoffs(a: map<Hash, Handoff>, b: map<Hash, Handoff>)
    requires OneHandoff(b) && Sub(a, b)
    ensures OneHandoff(a) && |a| <= |b|
  {
    SubSize(a, b);
  }

  lemma SubSessions(a: map<Hash, Session>, b: map<Hash, Session>)
    requires OneSession(b) && Sub(a, b)
    ensures OneSession(a) && |a| <= |b|
  {
    SubSize(a, b);
  }

  lemma AddSize<V>(m: map<Hash, V>, key: Hash, value: V)
    ensures |m[key := value]| <= |m| + 1
  {
  }

  /** Fewer records, and no credential gone that is in use. */
  ghost predicate Shrinks(s: State, s': State) {
    && Sub(s'.pending, s.pending) && Sub(s'.handoffs, s.handoffs) && Sub(s'.sessions, s.sessions)
    && (forall id | id in s.credentials && Used(s'.sessions, s'.handoffs, id) :: id in s'.credentials)
  }

  ghost predicate Smaller(s: State, s': State) {
    |s'.pending| <= |s.pending| && |s'.handoffs| <= |s.handoffs| && |s'.sessions| <= |s.sessions|
  }

  lemma ShrinkKeeps(s: State, s': State)
    requires Linked(s) && Shrinks(s, s')
    ensures Linked(s') && Smaller(s, s')
  {
    ShrinkKeepsBacked(s, s');
    hide Used, SessionsBacked, HandoffsBacked, Sub, OnePending, OneHandoff, OneSession;
    SubPending(s'.pending, s.pending);
    SubHandoffs(s'.handoffs, s.handoffs);
    SubSessions(s'.sessions, s.sessions);
  }

  lemma ShrinkKeepsBacked(s: State, s': State)
    requires Backed(s) && Shrinks(s, s')
    ensures Backed(s')
  {
  }

  lemma CleanUpShrinks(s: State, now: int)
    ensures Shrinks(s, CleanedUp(s, now))
  {
  }

  /** After a clean-up exactly the credentials in use are stored. */
  lemma CleanUpTidies(s: State, now: int)
    requires Backed(s)
    ensures Tidy(CleanedUp(s, now))
  {
  }

  lemma CleanUpKeeps(s: State, now: int)
    requires Linked(s)
    ensures Linked(CleanedUp(s, now)) && Tidy(CleanedUp(s, now)) && Smaller(s, CleanedUp(s, now))
  {
    CleanUpShrinks(s, now);
    assert Backed(s);
    hide CleanedUp, Backed, Linked, Shrinks;
    CleanUpTidies(s, now);
    ShrinkKeeps(s, CleanedUp(s, now));
  }

  // ---------------------------------------------------------------- every operation keeps the invariant

  lemma AddPending(others: map<Hash, Pending>, key: Hash, record: Pending)
    requires OnePending(others) && forall k | k in others :: !SameOwner(others[k].owner, record.owner)
    ensures OnePending(others[key := record])
  {
  }

  lemma ReplacePending(pending: map<Hash, Pending>, key: Hash, record: Pending)
    requires OnePending(pending)
    ensures var others := PendingOfOthers(pending, record.owner);
      && OnePending(others) && |others| <= |pending|
      && OnePending(others[key := record]) && |others[key := record]| <= |others| + 1
  {
    var others := PendingOfOthers(pending, record.owner);
    assert Sub(others, pending) && forall k | k in others :: !SameOwner(others[k].owner, record.owner);
    hide PendingOfOthers, OnePending, Sub, SameOwner;
    SubPending(others, pending);
    AddPending(others, key, record);
    AddSize(others, key, record);
  }

  lemma PutPendingKeeps(s: State, state: string, record: Pending, now: int)
    requires Valid(s)
    ensures Valid(PutPendingIn(s, state, record, now).0) && Tidy(PutPendingIn(s, state, record, now).0)
    ensures PutPendingIn(s, state, record, now).1 == Ok(()) ==>
      && HashOf(state) in PutPendingIn(s, state, record, now).0.pending
      && PutPendingIn(s, state, record, now).0.pending[HashOf(state)] == record
  {
    hide CleanedUp, Used, PendingOfOthers, OnePending, OneHandoff, OneSession, SessionsBacked, HandoffsBacked;
    CleanUpKeeps(s, now);
    ReplacePending(CleanedUp(s, now).pending, HashOf(state), record);
  }

  lemma ConsumePendingKeeps(s: State, state: string, now: int)
    requires Valid(s)
    ensures Valid(ConsumePendingIn(s, state, now).0)
  {
  }

  lemma AddHandoff(others: map<Hash, Handoff>, key: Hash, record: Handoff, credentials: set<string>)
    requires OneHandoff(others) && HandoffsBacked(others, credentials) && record.credentialID in credentials
    requires forall k | k in others :: !SameOwner(others[k].owner, record.owner)
    ensures OneHandoff(others[key := record]) && HandoffsBacked(others[key := record], credentials)
  {
  }

  lemma ReplaceHandoff(s: State, key: Hash, record: Handoff)
    requires Linked(s) && record.credentialID in s.credentials
    ensures var handoffs := HandoffsOfOthers(s.handoffs, record.owner)[key := record];
      Linked(s.(handoffs := handoffs)) && |handoffs| <= |s.handoffs| + 1
  {
    var others := HandoffsOfOthers(s.handoffs, record.owner);
    assert Sub(others, s.handoffs) && forall k | k in others :: !SameOwner(others[k].owner, record.owner);
    assert HandoffsBacked(others, s.credentials.Keys);
    hide Used, HandoffsOfOthers, OnePending, OneHandoff, OneSession, SessionsBacked, HandoffsBacked, Sub, SameOwner;
    SubHandoffs(others, s.handoffs);
    AddHandoff(others, key, record, s.credentials.Keys);
    AddSize(others, key, record);
  }

  lemma DropHandoff(s: State, key: Hash)
    requires Linked(s)
    ensures Linked(s.(handoffs := s.handoffs - {key}))
            && |s.handoffs - {key}| == if key in s.handoffs then |s.handoffs| - 1 else |s.handoffs|
  {
  }

  lemma PutHandoffKeeps(s: State, code: string, record: Handoff, now: int)
    requires Valid(s) && record.credentialID in s.credentials
    ensures Valid(PutHandoffIn(s, code, record, now).0) && Tidy(PutHandoffIn(s, code, record, now).0)
  {
    hide CleanedUp, HandoffsOfOthers, Linked, Tidy;
    var key := HashOf(code);
    ReplaceHandoff(s, key, record);
    var added := s.(handoffs := HandoffsOfOthers(s.handoffs, record.owner)[key := record]);
    CleanUpKeeps(added, now);
    var cleaned := CleanedUp(added, now);
    if |cleaned.handoffs| > MAX_HANDOFFS {
      KeyStays(s, key, record, now);
      DropHandoff(cleaned, key);
      CleanUpKeeps(cleaned.(handoffs := cleaned.handoffs - {key}), now);
    }
  }

  /** A table that is over its limit after a clean-up still has the new handoff in it. */
  lemma KeyStays(s: State, key: Hash, record: Handoff, now: int)
    requires |s.handoffs| <= MAX_HANDOFFS
    requires |CleanedUp(s.(handoffs := HandoffsOfOthers(s.handoffs, record.owner)[key := record]),
                        now).handoffs| > MAX_HANDOFFS
    ensures key in CleanedUp(s.(handoffs := HandoffsOfOthers(s.handoffs, record.owner)[key := record]), now).handoffs
  {
    var cleaned := CleanedUp(s.(handoffs := HandoffsOfOthers(s.handoffs, record.owner)[key := record]), now);
    if key !in cleaned.handoffs {
      Sets.SubsetSize(cleaned.handoffs.Keys, s.handoffs.Keys);
      assert false;
    }
  }

  lemma ConsumeHandoffKeeps(s: State, code: string, installationID: string, deviceSecret: string, state: string,
                            now: int)
    requires Valid(s)
    ensures Valid(ConsumeHandoffIn(s, code, installationID, deviceSecret, state, now).0)
  {
    hide Linked;
    DropHandoff(s, HashOf(code));
  }

  lemma PutCredentialKeeps(s: State, id: string, credential: Credential)
    requires Valid(s)
    ensures Valid(PutCredentialIn(s, id, credential))
  {
  }

  lemma PutBothKeeps(s: State, id: string, credential: Credential, code: string, record: Handoff, now: int)
    requires Valid(s)
    ensures var (after, answer) := PutCredentialAndHandoffIn(s, id, credential, code, record, now);
      Valid(after) && if answer == Err(Inconsistent) then after == s else Tidy(after)
  {
    if id != "" && record.credentialID == id {
      PutCredentialKeeps(s, id, credential);
      hide Valid, Tidy;
      PutHandoffKeeps(PutCredentialIn(s, id, credential), code, record, now);
    }
  }

  lemma AddSession(others: map<Hash, Session>, key: Hash, record: Session, credentials: set<string>)
    requires OneSession(others) && SessionsBacked(others, credentials) && record.credentialID in credentials
    requires forall k | k in others :: others[k].owner.installationID != record.owner.installationID
    ensures OneSession(others[key := record]) && SessionsBacked(others[key := record], credentials)
  {
  }

  lemma ReplaceSession(s: State, key: Hash, record: Session, now: int)
    requires Linked(s) && record.credentialID in s.credentials
    ensures var others := OtherSessions(s.sessions, record.owner.installationID, now);
      && Linked(s.(sessions := others)) && |others| <= |s.sessions|
      && Linked(s.(sessions := others[key := record])) && |others[key := record]| <= |others| + 1
  {
    var others := OtherSessions(s.sessions, record.owner.installationID, now);
    assert Sub(others, s.sessions) && forall k | k in others ::
      others[k].owner.installationID != record.owner.installationID;
    assert SessionsBacked(others, s.credentials.Keys);
    hide Used, OtherSessions, OnePending, OneHandoff, OneSession, SessionsBacked, HandoffsBacked, Sub;
    SubSessions(others, s.sessions);
    AddSession(others, key, record, s.credentials.Keys);
    AddSize(others, key, record);
  }

  lemma CreateSessionKeeps(s: State, credentialID: string, owner: Owner, token: string, ttl: int, now: int)
    requires Valid(s)
    ensures var (after, answer) := CreateSessionIn(s, credentialID, owner, token, ttl, now);
      Valid(after) && (answer.Ok? ==> Tidy(after))
  {
    hide Linked, OtherSessions, CleanedUp, HeldByOtherDevice, Tidy;
    if credentialID in s.credentials {
      var record := Session(credentialID, owner, now, now + ttl);
      ReplaceSession(s, HashOf(token), record, now);
      var others := OtherSessions(s.sessions, owner.installationID, now);
      CleanUpKeeps(s.(sessions := others[HashOf(token) := record]), now);
    }
  }

  lemma DropSession(s: State, key: Hash)
    requires Linked(s)
    ensures Linked(s.(sessions := s.sessions - {key})) && |s.sessions - {key}| <= |s.sessions|
  {
  }

  lemma DeleteIfUnusedKeeps(s: State, credentialID: string)
    requires Valid(s)
    ensures Valid(DeleteIfUnused(s, credentialID))
  {
  }

  lemma RenewKeeps(s: State, key: Hash, expiresAt: int)
    requires Linked(s) && key in s.sessions
    ensures Linked(s.(sessions := s.sessions[key := s.sessions[key].(expiresAt := expiresAt)]))
    ensures |s.sessions[key := s.sessions[key].(expiresAt := expiresAt)]| == |s.sessions|
  {
  }

  lemma ResolveSessionKeeps(s: State, token: string, owner: Owner, renewal: int, now: int)
    requires Valid(s)
    ensures Valid(ResolveSessionIn(s, token, owner, renewal, now).0)
  {
    var key := HashOf(token);
    hide Linked, DeleteIfUnused, SameOwner;
    if key in s.sessions {
      if now > s.sessions[key].expiresAt {
        DropSession(s, key);
        DeleteIfUnusedKeeps(s.(sessions := s.sessions - {key}), s.sessions[key].credentialID);
      } else {
        RenewKeeps(s, key, now + renewal);
      }
    }
  }

  lemma DeleteSessionKeeps(s: State, token: string, owner: Owner)
    requires Valid(s)
    ensures Valid(DeleteSessionIn(s, token, owner).0)
  {
    var key := HashOf(token);
    hide Linked, DeleteIfUnused;
    if key in s.sessions {
      DropSession(s, key);
      DeleteIfUnusedKeeps(s.(sessions := s.sessions - {key}), s.sessions[key].credentialID);
    }
  }
}
