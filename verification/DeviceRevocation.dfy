/** Revoking a device across three stores, any of which may fail, and trying again. */
module DeviceRevocation {
  import opened Wrappers
  import opened AuthState
  import opened AuthRevocation
  import D = Delivery
  import Deliveries = DeliveryStore

  /** Old registrations hold the secret itself. */
  datatype RegisteredSecret = Hashed(hash: Hash) | Plain(secret: string)

  datatype Registered = Registered(secret: RegisteredSecret, userID: string)

  datatype Devices = Devices(registrations: map<string, Registered>, deliveries: D.Records, auth: State)

  datatype Answer = NoContent | Unauthorized | Forbidden | ServerError

  /** Which storage calls fail, each without effect. */
  datatype Faults = Faults(resolve: bool, binding: bool, authenticate: bool, delete: bool, deliveries: bool,
                           revoke: bool)

  const NO_FAULTS := Faults(false, false, false, false, false, false)

  /** The caller: installation, device secret and session token. */
  datatype Caller = Caller(installationID: string, deviceSecret: string, token: string)

  function Me(c: Caller): Owner {
    Owner(c.installationID, HashOf(c.deviceSecret))
  }

  predicate SecretMatches(r: Registered, provided: string) {
    provided != "" && match r.secret
      case Hashed(hash) => HashEqual(hash, HashOf(provided))
      case Plain(secret) => secret == provided
  }

  /** The registration goes first, then the deliveries, then the authentication records. */
  function RemoveAll(d: Devices, c: Caller, faults: Faults): (Devices, Answer) {
    if faults.delete then (d, ServerError)
    else if c.installationID in d.registrations && !SecretMatches(d.registrations[c.installationID], c.deviceSecret)
    then (d, Forbidden)
    else
      var unregistered := d.(registrations := d.registrations - {c.installationID});
      if faults.deliveries then (unregistered, ServerError)
      else
        var silenced := unregistered.(deliveries := Deliveries.WithoutInstallation(d.deliveries, c.installationID));
        if faults.revoke then (silenced, ServerError)
        else
          var (auth, outcome) := RevokeCheckedIn(d.auth, Me(c));
          (silenced.(auth := auth), if outcome.Ok? then NoContent else Forbidden)
  }

  /** Without a session the registration's own secret decides; without a registration there is nothing left to do. */
  function WithoutSession(d: Devices, c: Caller, faults: Faults): (Devices, Answer) {
    if faults.authenticate then (d, ServerError)
    else if c.installationID !in d.registrations then (d, NoContent)
    else if !SecretMatches(d.registrations[c.installationID], c.deviceSecret) then (d, Forbidden)
    else RemoveAll(d, c, faults)
  }

  function Revoke(d: Devices, c: Caller, renewal: int, faults: Faults, now: int): (Devices, Answer) {
    if faults.resolve then (d, ServerError)
    else
      var (auth, outcome) := ResolveSessionIn(d.auth, c.token, Me(c), renewal, now);
      var resolved := d.(auth := auth);
      if outcome.Ok? then RemoveAll(resolved, c, faults)
      else if outcome == Err(DeviceMismatch) then (resolved, Forbidden)
      else if outcome == Err(NotFound) && faults.binding then (resolved, ServerError)
      else if outcome == Err(NotFound) && AnyMatching(auth, Me(c)) then (resolved, Unauthorized)
      else if outcome == Err(NotFound) && AnyForeign(auth, Me(c)) then (resolved, Forbidden)
      else WithoutSession(resolved, c, faults)
  }

  // ---------------------------------------------------------------- a device with a session

  predicate LiveAt(d: Devices, c: Caller, now: int) {
    HashOf(c.token) in d.auth.sessions && SameOwner(d.auth.sessions[HashOf(c.token)].owner, Me(c))
    && now <= d.auth.sessions[HashOf(c.token)].expiresAt
  }

  /** Everything stored for the installation was stored by the device that asks. */
  predicate OwnDevice(d: Devices, c: Caller) {
    && !AnyForeign(d.auth, Me(c))
    && (c.installationID in d.registrations ==> SecretMatches(d.registrations[c.installationID], c.deviceSecret))
  }

  /** What a revocation is to achieve: nothing of the installation is left, and no credential that is not in use. */
  function Revoked(d: Devices, c: Caller): Devices {
    Devices(d.registrations - {c.installationID}, Deliveries.WithoutInstallation(d.deliveries, c.installationID),
            WithoutUnused(Cleared(d.auth, Me(c))))
  }

  lemma LiveMatches(d: Devices, c: Caller, now: int)
    requires LiveAt(d, c, now)
    ensures AnyMatching(d.auth, Me(c)) && HasMatching(d.auth.sessions, SessionOwner, Me(c))
  {
  }

  /** Resolving a live session at most makes it last longer, which changes nothing about the result of a revocation. */
  lemma ResolveIsHarmless(d: Devices, c: Caller, renewal: int, now: int)
    requires LiveAt(d, c, now)
    ensures var (auth, outcome) := ResolveSessionIn(d.auth, c.token, Me(c), renewal, now);
      var key := HashOf(c.token);
      && outcome.Ok? && auth.pending == d.auth.pending && auth.handoffs == d.auth.handoffs
         && auth.credentials == d.auth.credentials
      && auth.sessions == d.auth.sessions[key := outcome.value]
      && outcome.value.owner == d.auth.sessions[key].owner && outcome.value.expiresAt >= d.auth.sessions[key].expiresAt
  {
  }

  lemma SameResult(auth: State, auth': State, me: Owner, key: Hash, record: Session)
    requires key in auth.sessions && auth'.sessions == auth.sessions[key := record]
    requires record.owner == auth.sessions[key].owner && Mine(record.owner, me)
    requires auth'.pending == auth.pending && auth'.handoffs == auth.handoffs && auth'.credentials == auth.credentials
    ensures Cleared(auth', me) == Cleared(auth, me) && AnyForeign(auth', me) == AnyForeign(auth, me)
  {
    assert WithoutMine(auth'.sessions, SessionOwner, me) == WithoutMine(auth.sessions, SessionOwner, me);
    SameForeign(auth.sessions, auth'.sessions, me, key, record);
  }

  lemma SameForeign(sessions: map<Hash, Session>, sessions': map<Hash, Session>, me: Owner, key: Hash, record: Session)
    requires key in sessions && sessions' == sessions[key := record] && record.owner == sessions[key].owner
    ensures HasForeign(sessions', SessionOwner, me) == HasForeign(sessions, SessionOwner, me)
  {
    if HasForeign(sessions, SessionOwner, me) {
      var k :| k in sessions && Foreign(SessionOwner(sessions[k]), me);
      assert k in sessions' && Foreign(SessionOwner(sessions'[k]), me);
    }
    if HasForeign(sessions', SessionOwner, me) {
      var k :| k in sessions' && Foreign(SessionOwner(sessions'[k]), me);
      assert k in sessions && Foreign(SessionOwner(sessions[k]), me);
    }
  }

  /** The registration, if there is one, was made with the caller's secret. */
  predicate SecretHeld(d: Devices, c: Caller) {
    c.installationID in d.registrations ==> SecretMatches(d.registrations[c.installationID], c.deviceSecret)
  }

  /** What an attempt without faults leaves, apart from how long the session lasts: with a foreign record stored
      the registration and the deliveries go and the authentication records stay. */
  function Goal(d: Devices, c: Caller): Devices {
    if !SecretHeld(d, c) then d
    else if AnyForeign(d.auth, Me(c)) then
      d.(registrations := d.registrations - {c.installationID},
         deliveries := Deliveries.WithoutInstallation(d.deliveries, c.installationID))
    else Revoked(d, c)
  }

  /** Everything but how long the caller's session lasts. */
  function Timeless(d: Devices, c: Caller): Devices {
    var key := HashOf(c.token);
    if key !in d.auth.sessions then d
    else d.(auth := d.auth.(sessions := d.auth.sessions[key := d.auth.sessions[key].(expiresAt := 0)]))
  }

  /** The session is still there, for at least as long. */
  ghost predicate LivesOn(d: Devices, d': Devices, c: Caller) {
    forall later | LiveAt(d, c, later) :: LiveAt(d', c, later)
  }

  lemma RemoveAllKeeps(d: Devices, c: Caller, faults: Faults)
    requires AnyMatching(d.auth, Me(c))
    ensures var (d', answer) := RemoveAll(d, c, faults);
      if answer == NoContent then OwnDevice(d, c) && d' == Revoked(d, c)
      else
        && d'.auth == d.auth && OwnDevice(d', c) == OwnDevice(d, c) && Goal(d', c) == Goal(d, c)
        && (d == Goal(d, c) ==> d' == d)
    ensures !faults.delete && !faults.deliveries && !faults.revoke ==>
      var (d', answer) := RemoveAll(d, c, faults);
      d' == Goal(d, c) && answer == if OwnDevice(d, c) then NoContent else Forbidden
  {
    hide AnyForeign, AnyMatching, Cleared, WithoutUnused, SecretMatches;
    var gone := d.registrations - {c.installationID};
    var left := Deliveries.WithoutInstallation(d.deliveries, c.installationID);
    assert gone - {c.installationID} == gone && Deliveries.WithoutInstallation(left, c.installationID) == left;
    assert c.installationID !in d.registrations ==> gone == d.registrations;
  }

  lemma ResolveKeepsGoal(d: Devices, c: Caller, renewal: int, now: int)
    requires LiveAt(d, c, now)
    ensures var resolved := d.(auth := ResolveSessionIn(d.auth, c.token, Me(c), renewal, now).0);
      && Timeless(resolved, c) == Timeless(d, c) && OwnDevice(resolved, c) == OwnDevice(d, c)
      && Timeless(Goal(resolved, c), c) == Timeless(Goal(d, c), c) && Revoked(resolved, c) == Revoked(d, c)
      && LiveAt(resolved, c, now) && LivesOn(d, resolved, c)
  {
    var (auth, outcome) := ResolveSessionIn(d.auth, c.token, Me(c), renewal, now);
    ResolveIsHarmless(d, c, renewal, now);
    SameResult(d.auth, auth, Me(c), HashOf(c.token), outcome.value);
    hide ResolveSessionIn, AnyForeign, Cleared, WithoutUnused, Deliveries.WithoutInstallation;
  }

  /** One attempt by a device with a live session, whatever else is stored for the installation: either it achieves
      everything, or it reports an error, the session lives on, and what is left to achieve is the same. */
  lemma AttemptKeeps(d: Devices, c: Caller, renewal: int, faults: Faults, now: int)
    requires LiveAt(d, c, now)
    ensures var (d', answer) := Revoke(d, c, renewal, faults, now);
      if answer == NoContent then OwnDevice(d, c) && d' == Revoked(d, c)
      else
        && (answer == ServerError || answer == Forbidden) && LivesOn(d, d', c)
        && OwnDevice(d', c) == OwnDevice(d, c) && Timeless(Goal(d', c), c) == Timeless(Goal(d, c), c)
        && (OwnDevice(d, c) ==> Revoked(d', c) == Revoked(d, c))
    ensures faults == NO_FAULTS ==>
      var (d', answer) := Revoke(d, c, renewal, faults, now);
      Timeless(d', c) == Timeless(Goal(d, c), c) && answer == if OwnDevice(d, c) then NoContent else Forbidden
  {
    ResolveKeepsGoal(d, c, renewal, now);
    ResolveIsHarmless(d, c, renewal, now);
    var resolved := d.(auth := ResolveSessionIn(d.auth, c.token, Me(c), renewal, now).0);
    LiveMatches(resolved, c, now);
    hide ResolveSessionIn, AnyForeign, AnyMatching, Revoked, RemoveAll, Timeless;
    RemoveAllKeeps(resolved, c, faults);
    if !faults.resolve && RemoveAll(resolved, c, faults).1 != NoContent {
      SessionStays(resolved, RemoveAll(resolved, c, faults).0, c);
      LivesOnLonger(d, resolved, RemoveAll(resolved, c, faults).0, c);
    }
  }

  lemma SessionStays(d: Devices, d': Devices, c: Caller)
    requires d'.auth == d.auth
    ensures LivesOn(d, d', c)
  {
  }

  lemma LivesOnLonger(d: Devices, d': Devices, d'': Devices, c: Caller)
    requires LivesOn(d, d', c) && LivesOn(d', d'', c)
    ensures LivesOn(d, d'', c)
  {
  }

  /** The session survives every attempt that does not succeed. */
  lemma FailureKeepsSession(d: Devices, c: Caller, renewal: int, faults: Faults, now: int)
    requires LiveAt(d, c, now) && Revoke(d, c, renewal, faults, now).1 != NoContent
    ensures forall later | LiveAt(d, c, later) :: LiveAt(Revoke(d, c, renewal, faults, now).0, c, later)
  {
    hide Revoke, Goal, Timeless, OwnDevice, Revoked, LiveAt;
    AttemptKeeps(d, c, renewal, faults, now);
  }

  // ---------------------------------------------------------------- trying again

  datatype Try = Try(faults: Faults, now: int)

  function AfterTries(d: Devices, c: Caller, renewal: int, tries: seq<Try>): Devices
    decreases |tries|
  {
    if tries == [] then d else AfterTries(Revoke(d, c, renewal, tries[0].faults, tries[0].now).0, c, renewal,
                                          tries[1..])
  }

  /** A request that comes again after a success changes nothing. */
  lemma RepeatAfterSuccess(d: Devices, c: Caller, renewal: int, faults: Faults, now: int)
    requires HashOf(c.token) in d.auth.sessions && SameOwner(d.auth.sessions[HashOf(c.token)].owner, Me(c))
    ensures Revoke(Revoked(d, c), c, renewal, faults, now).0 == Revoked(d, c)
    ensures Revoke(Revoked(d, c), c, renewal, faults, now).1 == NoContent
            || Revoke(Revoked(d, c), c, renewal, faults, now).1 == ServerError
  {
  }

  /** Each attempt finds the session alive, in the state it meets, until one succeeds. */
  predicate StaysLive(d: Devices, c: Caller, renewal: int, tries: seq<Try>)
    decreases |tries|
  {
    tries == [] ||
    (LiveAt(d, c, tries[0].now)
     && var (d', answer) := Revoke(d, c, renewal, tries[0].faults, tries[0].now);
        answer == NoContent || StaysLive(d', c, renewal, tries[1..]))
  }

  predicate SomeFaultless(tries: seq<Try>) {
    exists i | 0 <= i < |tries| :: tries[i].faults == NO_FAULTS
  }

  lemma LaterFaultless(tries: seq<Try>)
    requires SomeFaultless(tries) && tries[0].faults != NO_FAULTS
    ensures SomeFaultless(tries[1..])
  {
    var i :| 0 <= i < |tries| && tries[i].faults == NO_FAULTS;
    assert tries[1..][i - 1] == tries[i];
  }

  lemma {:induction false} GoalStays(d: Devices, c: Caller, renewal: int, tries: seq<Try>)
    requires HashOf(c.token) in d.auth.sessions && SameOwner(d.auth.sessions[HashOf(c.token)].owner, Me(c))
    ensures AfterTries(Revoked(d, c), c, renewal, tries) == Revoked(d, c)
    decreases |tries|
  {
    hide Revoked, Revoke;
    if tries != [] {
      RepeatAfterSuccess(d, c, renewal, tries[0].faults, tries[0].now);
      GoalStays(d, c, renewal, tries[1..]);
    }
  }

  lemma {:induction false} RetriesConverge(d: Devices, c: Caller, renewal: int, tries: seq<Try>)
    requires OwnDevice(d, c) && StaysLive(d, c, renewal, tries) && SomeFaultless(tries)
    ensures AfterTries(d, c, renewal, tries) == Revoked(d, c)
    decreases |tries|
  {
    assert tries != [];
    hide Revoked, Revoke, OwnDevice, SameOwner, Goal, Timeless, SomeFaultless;
    var t, rest := tries[0], tries[1..];
    assert LiveAt(d, c, t.now);
    var d' := Revoke(d, c, renewal, t.faults, t.now).0;
    AttemptKeeps(d, c, renewal, t.faults, t.now);
    if Revoke(d, c, renewal, t.faults, t.now).1 == NoContent {
      GoalStays(d, c, renewal, rest);
    } else {
      LaterFaultless(tries);
      RetriesConverge(d', c, renewal, rest);
    }
  }

  /** An attempt by a device that has already got all it can get. */
  lemma DoneStaysDone(d: Devices, c: Caller, renewal: int, faults: Faults, now: int)
    requires LiveAt(d, c, now) && !OwnDevice(d, c) && Timeless(d, c) == Timeless(Goal(d, c), c)
    ensures Timeless(Revoke(d, c, renewal, faults, now).0, c) == Timeless(d, c)
  {
    ResolveKeepsGoal(d, c, renewal, now);
    ResolveIsHarmless(d, c, renewal, now);
    var resolved := d.(auth := ResolveSessionIn(d.auth, c.token, Me(c), renewal, now).0);
    LiveMatches(resolved, c, now);
    NothingLeft(d, resolved, c);
    hide ResolveSessionIn, AnyForeign, AnyMatching, RemoveAll, Timeless, Goal;
    RemoveAllKeeps(resolved, c, faults);
  }

  lemma NothingLeft(d: Devices, d': Devices, c: Caller)
    requires !OwnDevice(d, c) && Timeless(d, c) == Timeless(Goal(d, c), c)
    requires Timeless(d', c) == Timeless(d, c) && OwnDevice(d', c) == OwnDevice(d, c)
    ensures Goal(d', c) == d'
  {
    hide AnyForeign, SecretMatches, Deliveries.WithoutInstallation;
  }

  lemma {:induction false} RefusalsConverge(d: Devices, c: Caller, renewal: int, tries: seq<Try>, goal: Devices)
    requires !OwnDevice(d, c) && goal == Timeless(Goal(d, c), c) && StaysLive(d, c, renewal, tries)
    ensures Timeless(d, c) == goal || SomeFaultless(tries) ==> Timeless(AfterTries(d, c, renewal, tries), c) == goal
    decreases |tries|
  {
    hide Goal, Revoke, OwnDevice, LiveAt, Timeless, Revoked, SomeFaultless;
    if tries == [] {
      assert !SomeFaultless(tries) by { NoneFaultless(); }
    } else {
      var t, rest := tries[0], tries[1..];
      var d' := Revoke(d, c, renewal, t.faults, t.now).0;
      AttemptKeeps(d, c, renewal, t.faults, t.now);
      if Timeless(d, c) == goal {
        DoneStaysDone(d, c, renewal, t.faults, t.now);
      } else if SomeFaultless(tries) && t.faults != NO_FAULTS {
        LaterFaultless(tries);
      }
      RefusalsConverge(d', c, renewal, rest, goal);
    }
  }

  lemma NoneFaultless()
    ensures !SomeFaultless([])
  {
  }

  /** However often and wherever the attempts of a device fail while its session, renewed or not, is alive: once one of
      them met no fault the stores are as a first attempt without faults leaves them, up to how long the session lasts,
      and exactly if nothing foreign is stored. After a success anything may be tried. */
  lemma RetriesReachSuccess(d: Devices, c: Caller, renewal: int, tries: seq<Try>, first: int)
    requires StaysLive(d, c, renewal, tries) && SomeFaultless(tries) && LiveAt(d, c, first)
    ensures var once := Revoke(d, c, renewal, NO_FAULTS, first).0;
      && Timeless(AfterTries(d, c, renewal, tries), c) == Timeless(once, c)
      && (OwnDevice(d, c) ==> AfterTries(d, c, renewal, tries) == Revoked(d, c) == once)
  {
    hide Revoke, StaysLive, OwnDevice, Revoked, Goal, LiveAt, SomeFaultless;
    AttemptKeeps(d, c, renewal, NO_FAULTS, first);
    if OwnDevice(d, c) {
      RetriesConverge(d, c, renewal, tries);
    } else {
      RefusalsConverge(d, c, renewal, tries, Timeless(Goal(d, c), c));
    }
  }

  // ---------------------------------------------------------------- other installations

  /** Nothing of another installation has changed. */
  predicate OthersSame(d: Devices, d': Devices, c: Caller) {
    && d'.registrations - {c.installationID} == d.registrations - {c.installationID}
    && Deliveries.WithoutInstallation(d'.deliveries, c.installationID)
       == Deliveries.WithoutInstallation(d.deliveries, c.installationID)
    && AuthSame(d.auth, d'.auth, Me(c))
  }

  predicate AuthSame(s: State, s': State, me: Owner) {
    && WithoutMine(s'.sessions, SessionOwner, me) == WithoutMine(s.sessions, SessionOwner, me)
    && WithoutMine(s'.pending, PendingOwner, me) == WithoutMine(s.pending, PendingOwner, me)
    && WithoutMine(s'.handoffs, HandoffOwner, me) == WithoutMine(s.handoffs, HandoffOwner, me)
  }

  /** The token names a session of another installation that has expired. */
  predicate StrangersExpired(d: Devices, c: Caller, now: int) {
    var key := HashOf(c.token);
    key in d.auth.sessions && now > d.auth.sessions[key].expiresAt && !Mine(d.auth.sessions[key].owner, Me(c))
  }

  lemma MineTwice<V>(records: map<Hash, V>, ownerOf: V -> Owner, me: Owner)
    ensures WithoutMine(WithoutMine(records, ownerOf, me), ownerOf, me) == WithoutMine(records, ownerOf, me)
  {
  }

  lemma RemoveAllSparesOthers(d: Devices, c: Caller, faults: Faults)
    ensures OthersSame(d, RemoveAll(d, c, faults).0, c)
  {
    MineTwice(d.auth.sessions, SessionOwner, Me(c));
    MineTwice(d.auth.pending, PendingOwner, Me(c));
    MineTwice(d.auth.handoffs, HandoffOwner, Me(c));
    var gone := d.registrations - {c.installationID};
    var left := Deliveries.WithoutInstallation(d.deliveries, c.installationID);
    assert gone - {c.installationID} == gone && Deliveries.WithoutInstallation(left, c.installationID) == left;
    hide WithoutMine, AnyForeign, AnyMatching, UsedCredentials, SecretMatches, Deliveries.WithoutInstallation;
  }

  lemma SessionChange(sessions: map<Hash, Session>, sessions': map<Hash, Session>, key: Hash, me: Owner)
    requires key in sessions && forall k | k != key :: k in sessions' <==> k in sessions
    requires forall k | k in sessions && k != key :: sessions'[k] == sessions[k]
    requires key in sessions' ==> sessions'[key].owner == sessions[key].owner
    ensures Mine(sessions[key].owner, me) ==>
      WithoutMine(sessions', SessionOwner, me) == WithoutMine(sessions, SessionOwner, me)
    ensures !Mine(sessions[key].owner, me) && key !in sessions' ==>
      WithoutMine(sessions', SessionOwner, me) != WithoutMine(sessions, SessionOwner, me)
  {
    assert !Mine(sessions[key].owner, me) ==> key in WithoutMine(sessions, SessionOwner, me);
  }

  /** What resolving does to the tables: at most the session named by the token changes, and it goes exactly if it has
      expired. */
  lemma ResolveChanges(s: State, token: string, owner: Owner, renewal: int, now: int)
    ensures var (s', key) := (ResolveSessionIn(s, token, owner, renewal, now).0, HashOf(token));
      && s'.pending == s.pending && s'.handoffs == s.handoffs
      && (forall k | k != key :: k in s'.sessions <==> k in s.sessions)
      && (forall k | k in s.sessions && k != key :: s'.sessions[k] == s.sessions[k])
      && (key in s'.sessions <==> key in s.sessions && now <= s.sessions[key].expiresAt)
      && (key in s'.sessions ==> s'.sessions[key].owner == s.sessions[key].owner)
      && (key in s'.sessions && !SameOwner(s.sessions[key].owner, owner) ==> s'.sessions[key] == s.sessions[key])
  {
    hide Used;
  }

  lemma ResolveSparesOthers(d: Devices, c: Caller, renewal: int, now: int)
    ensures AuthSame(d.auth, ResolveSessionIn(d.auth, c.token, Me(c), renewal, now).0, Me(c)) <==>
      !StrangersExpired(d, c, now)
  {
    hide WithoutMine, ResolveSessionIn;
    var key := HashOf(c.token);
    var auth := ResolveSessionIn(d.auth, c.token, Me(c), renewal, now).0;
    ResolveChanges(d.auth, c.token, Me(c), renewal, now);
    if key in d.auth.sessions {
      SessionChange(d.auth.sessions, auth.sessions, key, Me(c));
      SessionKept(d.auth.sessions, auth.sessions, key, Me(c));
    } else {
      assert auth.sessions == d.auth.sessions;
    }
  }

  lemma SessionKept(sessions: map<Hash, Session>, sessions': map<Hash, Session>, key: Hash, me: Owner)
    requires key in sessions && forall k | k != key :: k in sessions' <==> k in sessions
    requires forall k | k in sessions && k != key :: sessions'[k] == sessions[k]
    ensures key in sessions' && sessions'[key] == sessions[key] ==>
      WithoutMine(sessions', SessionOwner, me) == WithoutMine(sessions, SessionOwner, me)
  {
    if key in sessions' && sessions'[key] == sessions[key] {
      assert sessions' == sessions;
    }
  }

  lemma SameTogether(d: Devices, d1: Devices, d2: Devices, c: Caller)
    requires d1 == d.(auth := d1.auth) && OthersSame(d1, d2, c)
    ensures OthersSame(d, d2, c) <==> AuthSame(d.auth, d1.auth, Me(c))
  {
    hide WithoutMine, Deliveries.WithoutInstallation;
  }

  lemma RevokeParts(d: Devices, c: Caller, renewal: int, faults: Faults, now: int)
    requires !faults.resolve
    ensures var resolved := d.(auth := ResolveSessionIn(d.auth, c.token, Me(c), renewal, now).0);
      var d' := Revoke(d, c, renewal, faults, now).0;
      d' == resolved || d' == RemoveAll(resolved, c, faults).0
  {
    hide ResolveSessionIn, AnyMatching, AnyForeign, RemoveAll, SecretMatches;
  }

  /** Whatever fails and whatever is answered, an attempt changes nothing of another installation, exactly unless its
      token names a session of another installation that has expired, which resolving removes. */
  lemma OthersUntouchedIff(d: Devices, c: Caller, renewal: int, faults: Faults, now: int)
    ensures OthersSame(d, Revoke(d, c, renewal, faults, now).0, c) <==> faults.resolve || !StrangersExpired(d, c, now)
  {
    Unchanged(d, c);
    if !faults.resolve {
      hide ResolveSessionIn, RemoveAll, AuthSame, StrangersExpired, OthersSame, Revoke;
      var resolved := d.(auth := ResolveSessionIn(d.auth, c.token, Me(c), renewal, now).0);
      RevokeParts(d, c, renewal, faults, now);
      ResolveSparesOthers(d, c, renewal, now);
      RemoveAllSparesOthers(resolved, c, faults);
      Unchanged(resolved, c);
      SameTogether(d, resolved, Revoke(d, c, renewal, faults, now).0, c);
    }
  }

  lemma Unchanged(d: Devices, c: Caller)
    ensures OthersSame(d, d, c)
  {
  }

  /** In particular a device with a live session never touches another installation. */
  lemma OthersUntouched(d: Devices, c: Caller, renewal: int, faults: Faults, now: int)
    requires LiveAt(d, c, now)
    ensures OthersSame(d, Revoke(d, c, renewal, faults, now).0, c)
  {
    OthersUntouchedIff(d, c, renewal, faults, now);
  }

  /** Installation "a" presents the token of an expired session of installation "b", and that session goes. */
  lemma StrangersSessionGoes(d: Devices)
    requires d.auth == State(map[], map[], map[HashOf("t") := Session("c", Owner("b", HashOf("y")), 0, 1)],
                             map["c" := Credential("u", "", "")])
    ensures Valid(d.auth)
    ensures !OthersSame(d, Revoke(d, Caller("a", "x", "t"), 0, NO_FAULTS, 2).0, Caller("a", "x", "t"))
  {
    hide Revoke, OthersSame;
    assert "a"[0] != "b"[0];
    OthersUntouchedIff(d, Caller("a", "x", "t"), 0, NO_FAULTS, 2);
  }

  /** The credentials that the remaining sessions and handoffs need are still there, with the same contents. */
  lemma CredentialsStay(d: Devices, c: Caller, renewal: int, faults: Faults, now: int)
    requires Backed(d.auth)
    ensures CredentialsKept(d.auth, Revoke(d, c, renewal, faults, now).0.auth)
  {
    if !faults.resolve {
      hide ResolveSessionIn, RemoveAll, Backed, Revoke, CredentialsKept;
      var resolved := d.(auth := ResolveSessionIn(d.auth, c.token, Me(c), renewal, now).0);
      RevokeParts(d, c, renewal, faults, now);
      ResolveKeepsCredentials(d.auth, c.token, Me(c), renewal, now);
      RemovalKeepsCredentials(resolved, c, faults);
      KeptTogether(d.auth, resolved.auth, Revoke(d, c, renewal, faults, now).0.auth);
    }
  }

  predicate CredentialsKept(s: State, s': State) {
    Backed(s) ==> Backed(s') && forall id | id in s'.credentials ::
      id in s.credentials && s'.credentials[id] == s.credentials[id]
  }

  lemma KeptTogether(s: State, s1: State, s2: State)
    requires CredentialsKept(s, s1) && (s2 == s1 || CredentialsKept(s1, s2))
    ensures CredentialsKept(s, s2)
  {
    hide Backed;
  }

  lemma ResolveKeepsCredentials(s: State, token: string, owner: Owner, renewal: int, now: int)
    ensures CredentialsKept(s, ResolveSessionIn(s, token, owner, renewal, now).0)
  {
    hide SameOwner;
    if Backed(s) && HashOf(token) in s.sessions {
      DropBacked(s, HashOf(token));
    }
  }

  lemma DropBacked(s: State, key: Hash)
    requires Backed(s) && key in s.sessions
    ensures Backed(DeleteIfUnused(s.(sessions := s.sessions - {key}), s.sessions[key].credentialID))
  {
  }

  lemma RemovalKeepsCredentials(d: Devices, c: Caller, faults: Faults)
    ensures CredentialsKept(d.auth, RemoveAll(d, c, faults).0.auth)
  {
    ClearedKeepsCredentials(d.auth, Me(c));
    assert CredentialsKept(d.auth, d.auth) by { hide Backed; }
    hide CredentialsKept, Cleared, WithoutUnused, AnyForeign, AnyMatching, SecretMatches;
    hide Deliveries.WithoutInstallation;
  }

  lemma ClearedKeepsCredentials(s: State, me: Owner)
    ensures CredentialsKept(s, WithoutUnused(Cleared(s, me)))
  {
    if Backed(s) {
      ClearedIsTidy(s, me);
    }
    hide Used, WithoutMine, SessionsBacked, HandoffsBacked;
  }

  /** After a success exactly the credentials in use are left. */
  lemma ClearedIsTidy(s: State, me: Owner)
    requires Backed(s)
    ensures Tidy(WithoutUnused(Cleared(s, me)))
  {
  }

  // ---------------------------------------------------------------- trying again too late

  /** Something of the installation besides its session, or a credential that nothing uses. */
  predicate Remains(d: Devices, c: Caller) {
    || (exists id | id in d.deliveries :: d.deliveries[id].installationID == c.installationID)
    || (exists key | key in d.auth.pending :: Mine(PendingOwner(d.auth.pending[key]), Me(c)))
    || (exists key | key in d.auth.handoffs :: Mine(HandoffOwner(d.auth.handoffs[key]), Me(c)))
    || (exists id | id in d.auth.credentials :: !Used(d.auth.sessions, d.auth.handoffs, id))
  }

  function ExpiredSession(d: Devices, c: Caller): State {
    var key := HashOf(c.token);
    if key in d.auth.sessions then DeleteIfUnused(d.auth.(sessions := d.auth.sessions - {key}),
                                                  d.auth.sessions[key].credentialID) else d.auth
  }

  lemma TooLate(d: Devices, c: Caller, renewal: int, now: int)
    requires HashOf(c.token) in d.auth.sessions && now > d.auth.sessions[HashOf(c.token)].expiresAt
    requires c.installationID !in d.registrations
    ensures Revoke(d, c, renewal, NO_FAULTS, now) == (d.(auth := ExpiredSession(d, c)), NoContent)
  {
  }

  lemma OnlySession(sessions: map<Hash, Session>, key: Hash, me: Owner)
    requires OneSession(sessions) && key in sessions && Mine(sessions[key].owner, me)
    ensures WithoutMine(sessions, SessionOwner, me) == sessions - {key}
  {
  }

  lemma NoneMine<V>(records: map<Hash, V>, ownerOf: V -> Owner, me: Owner)
    ensures WithoutMine(records, ownerOf, me) == records <==>
      !exists key | key in records :: Mine(ownerOf(records[key]), me)
  {
  }

  lemma NoneDelivered(records: D.Records, installationID: string)
    ensures Deliveries.WithoutInstallation(records, installationID) == records <==>
      !exists id | id in records :: records[id].installationID == installationID
  {
  }

  /** Dropping one session and the credential only it used leaves the used credentials, if every other one was in
      use. */
  lemma CredentialsAgree(s: State, key: Hash)
    requires key in s.sessions
    ensures var without := s.(sessions := s.sessions - {key});
      (UsedCredentials(without) == DeleteIfUnused(without, s.sessions[key].credentialID).credentials)
      == !exists id | id in s.credentials :: !Used(s.sessions, s.handoffs, id)
  {
    var without, mine := s.(sessions := s.sessions - {key}), s.sessions[key].credentialID;
    assert Used(s.sessions, s.handoffs, mine);
    forall id | id in s.credentials
                && id != mine ensures Used(s.sessions, s.handoffs, id) == Used(without.sessions, without.handoffs, id) {
      if k :| k in s.sessions && s.sessions[k].credentialID == id {
        assert k in without.sessions && without.sessions[k].credentialID == id;
      }
    }
    var kept := DeleteIfUnused(without, mine).credentials;
    hide Used;
    if id :| id in s.credentials && !Used(s.sessions, s.handoffs, id) {
      assert id in kept && id !in UsedCredentials(without);
    }
  }

  /** Once the registration is gone, a further attempt finishes the work exactly if the session is still alive, or
      nothing was left to do. */
  lemma RetryFinishesIff(d: Devices, c: Caller, renewal: int, now: int)
    requires HashOf(c.token) in d.auth.sessions && SameOwner(d.auth.sessions[HashOf(c.token)].owner, Me(c))
    requires OneSession(d.auth.sessions) && OwnDevice(d, c) && c.installationID !in d.registrations
    ensures Revoke(d, c, renewal, NO_FAULTS, now).0 == Revoked(d, c) <==>
      now <= d.auth.sessions[HashOf(c.token)].expiresAt || !Remains(d, c)
  {
    var key := HashOf(c.token);
    if now <= d.auth.sessions[key].expiresAt {
      AttemptKeeps(d, c, renewal, NO_FAULTS, now);
    } else {
      TooLate(d, c, renewal, now);
      hide Revoke, OwnDevice;
      assert d.registrations - {c.installationID} == d.registrations;
      OnlySession(d.auth.sessions, key, Me(c));
      NoneMine(d.auth.pending, PendingOwner, Me(c));
      NoneMine(d.auth.handoffs, HandoffOwner, Me(c));
      NoneDelivered(d.deliveries, c.installationID);
      CredentialsAgree(d.auth, key);
      hide Used, UsedCredentials, WithoutMine, Deliveries.WithoutInstallation;
    }
  }

  /** The registration is gone, the session has expired, and the deliveries stay, though the answer is a success. */
  lemma DeliveryStays(d: Devices, c: Caller, r: D.Record)
    requires c == Caller("i", "s", "t") && r.installationID == "i"
    requires d.registrations == map[] && d.deliveries == map["e" := r]
    requires d.auth == State(map[], map[], map[HashOf("t") := Session("c", Me(c), 0, 1)],
                             map["c" := Credential("u", "", "")])
    ensures Valid(d.auth) && OwnDevice(d, c)
    ensures Revoke(d, c, 0, NO_FAULTS, 2).1 == NoContent && "e" in Revoke(d, c, 0, NO_FAULTS, 2).0.deliveries
    ensures Revoke(d, c, 0, NO_FAULTS, 2).0 != Revoked(d, c)
  {
    TooLate(d, c, 0, 2);
    assert "e" !in Deliveries.WithoutInstallation(d.deliveries, "i");
  }

  // ---------------------------------------------------------------- without a session

  /** The device registered with this secret, which was stored as it is or hashed. */
  predicate RegisteredWith(r: Registered, secret: string) {
    r.secret == Hashed(HashOf(secret)) || r.secret == Plain(secret)
  }

  /** A request with a token that no session has and with another secret than the registered one changes nothing. */
  lemma WrongSecretChangesNothing(d: Devices, c: Caller, secret: string, renewal: int, faults: Faults, now: int)
    requires HashOf(c.token) !in d.auth.sessions && c.installationID in d.registrations
    requires RegisteredWith(d.registrations[c.installationID], secret)
    requires c.deviceSecret != secret || c.deviceSecret == ""
    ensures Revoke(d, c, renewal, faults, now).0 == d && Revoke(d, c, renewal, faults, now).1 != NoContent
  {
    hide AnyMatching, AnyForeign, RemoveAll;
  }

  /** With the registered secret, and with nothing else stored for the installation, it removes the registration and the
      deliveries. */
  lemma RightSecretRemoves(d: Devices, c: Caller, renewal: int, now: int)
    requires HashOf(c.token) !in d.auth.sessions && c.installationID in d.registrations
    requires RegisteredWith(d.registrations[c.installationID], c.deviceSecret) && c.deviceSecret != ""
    requires !AnyMatching(d.auth, Me(c)) && !AnyForeign(d.auth, Me(c))
    ensures var (d', answer) := Revoke(d, c, renewal, NO_FAULTS, now);
      && answer == NoContent && d'.auth == d.auth && d'.registrations == d.registrations - {c.installationID}
      && (forall id | id in d.deliveries :: id in d'.deliveries <==>
            d.deliveries[id].installationID != c.installationID)
  {
    hide AnyMatching, AnyForeign;
  }

  // ---------------------------------------------------------------- the handler

  class DeviceServer {
    var registrations: map<string, Registered>
    var deliveries: D.Records
    var auth: State

    function Contents(): Devices
      reads this
    {
      Devices(registrations, deliveries, auth)
    }

    constructor ()
      ensures Contents() == Devices(map[], map[], EMPTY)
    {
      registrations, deliveries, auth := map[], map[], EMPTY;
    }

    method RemoveDevice(c: Caller, faults: Faults) returns (answer: Answer)
      modifies this
      ensures (Contents(), answer) == RemoveAll(old(Contents()), c, faults)
    {
      hide AnyForeign, AnyMatching, Cleared, WithoutUnused;
      if faults.delete {
        return ServerError;
      }
      if c.installationID in registrations {
        if !SecretMatches(registrations[c.installationID], c.deviceSecret) {
          return Forbidden;
        }
      }
      registrations := registrations - {c.installationID};
      if faults.deliveries {
        return ServerError;
      }
      var removed;
      deliveries, removed := Deliveries.DropInstallation(deliveries, c.installationID);
      if faults.revoke {
        return ServerError;
      }
      var (after, outcome) := RevokeCheckedIn(auth, Me(c));
      auth := after;
      answer := if outcome.Ok? then NoContent else Forbidden;
    }

    method RevokeMobileDevice(c: Caller, renewal: int, faults: Faults, now: int) returns (answer: Answer)
      modifies this
      ensures (Contents(), answer) == Revoke(old(Contents()), c, renewal, faults, now)
    {
      hide AnyForeign, AnyMatching, RemoveAll, ResolveSessionIn;
      if faults.resolve {
        return ServerError;
      }
      var (resolved, outcome) := ResolveSessionIn(auth, c.token, Me(c), renewal, now);
      auth := resolved;
      if outcome.Err? {
        if outcome.error == DeviceMismatch {
          return Forbidden;
        }
        if outcome.error == NotFound {
          if faults.binding {
            return ServerError;
          }
          if AnyMatching(auth, Me(c)) {
            return Unauthorized;
          }
          if AnyForeign(auth, Me(c)) {
            return Forbidden;
          }
        }
        if faults.authenticate {
          return ServerError;
        }
        if c.installationID !in registrations {
          return NoContent;
        }
        if !SecretMatches(registrations[c.installationID], c.deviceSecret) {
          return Forbidden;
        }
      }
      answer := RemoveDevice(c, faults);
    }
  }
}
