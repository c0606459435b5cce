/** Revoking every device of an account across three stores, any of which may fail, and trying again. */
module AccountRevocation {
  import opened Wrappers
  import opened Text
  import opened AuthState
  import opened AuthRevocation
  import opened DeviceRevocation
  import D = Delivery

  // ---------------------------------------------------------------- the account in the database

  /** Identifiers without surrounding white space, and no blank ones. */
  function Compact(ids: set<string>): set<string> {
    set id | id in ids && TrimSpace(id) != "" :: TrimSpace(id)
  }

  /** The installations whose logins and handoffs go: those named, and those with a session of the account. */
  function KnownRows(s: State, ids: set<string>, extra: set<string>): set<string> {
    Compact(Compact(extra) + SessionInstallations(s.sessions, ids))
  }

  function HandoffsWithout(handoffs: map<Hash, Handoff>, ids: set<string>,
                           installations: set<string>): map<Hash, Handoff> {
    map key | key in handoffs && handoffs[key].credentialID !in ids
              && handoffs[key].owner.installationID !in installations ::
      handoffs[key]
  }

  /** The database's statements, in one transaction. Unlike the memory store it does not learn installations from
      handoffs. */
  function AccountRows(s: State, userID: string, extra: set<string>): State {
    var ids := CredentialsOf(s, userID);
    var known := KnownRows(s, ids, extra);
    WithoutUnused(s.(sessions := SessionsWithout(s.sessions, ids), handoffs := HandoffsWithout(s.handoffs, ids, known),
                     pending := PendingWithout(s.pending, known), credentials := s.credentials - ids))
  }

  lemma RowsShrink(s: State, userID: string, extra: set<string>)
    ensures Shrinks(s, AccountRows(s, userID, extra))
  {
    hide KnownRows;
  }

  lemma RowsTidy(s: State, userID: string, extra: set<string>)
    requires Linked(AccountRows(s, userID, extra))
    ensures Tidy(AccountRows(s, userID, extra))
  {
    hide KnownRows, CredentialsOf, SessionsWithout, HandoffsWithout, PendingWithout;
  }

  /** The invariant holds, exactly the credentials in use remain, and none of them is the account's. */
  lemma RowsRevoked(s: State, userID: string, extra: set<string>)
    requires Valid(s)
    ensures var s' := AccountRows(s, userID, extra);
      && Valid(s') && Tidy(s')
      && (forall id | id in s'.credentials :: s'.credentials[id].userID != userID)
      && (forall key | key in s.sessions :: key in s'.sessions <==>
            s.credentials[s.sessions[key].credentialID].userID != userID)
  {
    RowsShrink(s, userID, extra);
    assert forall key | key in s.sessions :: s.sessions[key].credentialID in s.credentials.Keys;
    assert Linked(AccountRows(s, userID, extra)) && Smaller(s, AccountRows(s, userID, extra)) by {
      hide Shrinks, Linked, AccountRows;
      ShrinkKeeps(s, AccountRows(s, userID, extra));
    }
    RowsTidy(s, userID, extra);
    hide Linked, Tidy, Shrinks, Used, KnownRows, HandoffsWithout, PendingWithout;
  }

  // ---------------------------------------------------------------- when both stores agree

  /** What both stores know of decides the same about every login under way and every handoff of another account. */
  predicate ReachAlike(s: State, userID: string, extra: set<string>) {
    var ids := CredentialsOf(s, userID);
    var known := Compact(extra) + SessionInstallations(s.sessions, ids);
    var found := HandoffInstallations(s.handoffs, ids);
    var rows := KnownRows(s, ids, extra);
    && HandoffsAlike(s.handoffs, ids, known, found, rows)
    && PendingAlike(s.pending, known + found, rows)
  }

  predicate HandoffsAlike(handoffs: map<Hash, Handoff>, ids: set<string>, known: set<string>, found: set<string>,
                          rows: set<string>) {
    forall key | key in handoffs && handoffs[key].credentialID !in ids ::
      var i := handoffs[key].owner.installationID;
      (i in known <==> i in rows) && (i in found ==> i in known)
  }

  predicate PendingAlike(pending: map<Hash, Pending>, known: set<string>, rows: set<string>) {
    forall key | key in pending :: pending[key].owner.installationID in known <==>
      pending[key].owner.installationID in rows
  }

  lemma PendingAlikeIff(pending: map<Hash, Pending>, known: set<string>, rows: set<string>)
    ensures PendingWithout(pending, known) == PendingWithout(pending, rows) <==> PendingAlike(pending, known, rows)
  {
    if key :| key in pending && !(pending[key].owner.installationID in known <==>
                                    pending[key].owner.installationID in rows) {
      assert key in PendingWithout(pending, known) <==> key !in PendingWithout(pending, rows);
    }
  }

  lemma PassAlike(handoffs: map<Hash, Handoff>, after: map<Hash, Handoff>, ids: set<string>, known: set<string>,
                  rows: set<string>)
    requires HandoffPass(handoffs, after, ids, known)
    requires HandoffsAlike(handoffs, ids, known, HandoffInstallations(handoffs, ids), rows)
    ensures after == HandoffsWithout(handoffs, ids, rows)
  {
  }

  /** The first pass meets the account's handoffs last, and the second meets them first. */
  lemma PassDiffers(handoffs: map<Hash, Handoff>, ids: set<string>, known: set<string>, rows: set<string>)
    returns (after: map<Hash, Handoff>)
    ensures HandoffPass(handoffs, after, ids, known)
    ensures !HandoffsAlike(handoffs, ids, known, HandoffInstallations(handoffs, ids), rows)
      ==> after != HandoffsWithout(handoffs, ids, rows)
  {
    var found := HandoffInstallations(handoffs, ids);
    LastPass(handoffs, ids, known);
    FirstPass(handoffs, ids, known);
    after := HandoffsWithout(handoffs, ids, known);
    if !HandoffsAlike(handoffs, ids, known, found, rows) && after == HandoffsWithout(handoffs, ids, rows) {
      var key :| key in handoffs && handoffs[key].credentialID !in ids &&
        var i := handoffs[key].owner.installationID; !((i in known <==> i in rows) && (i in found ==> i in known));
      assert key in after <==> handoffs[key].owner.installationID !in rows;
      assert key in after;
      after := HandoffsWithout(handoffs, ids, known + found);
      assert key !in after;
    }
  }

  lemma LastPass(handoffs: map<Hash, Handoff>, ids: set<string>, known: set<string>)
    ensures HandoffPass(handoffs, HandoffsWithout(handoffs, ids, known), ids, known)
  {
    assert forall k | k in handoffs && handoffs[k].credentialID in ids ::
      handoffs[k].owner.installationID in HandoffInstallations(handoffs, ids);
  }

  lemma FirstPass(handoffs: map<Hash, Handoff>, ids: set<string>, known: set<string>)
    ensures HandoffPass(handoffs, HandoffsWithout(handoffs, ids, known + HandoffInstallations(handoffs, ids)), ids,
                        known)
  {
    assert forall k | k in handoffs && handoffs[k].credentialID in ids ::
      handoffs[k].owner.installationID in HandoffInstallations(handoffs, ids);
  }

  /** In every order of iteration the memory store revokes an account as the database does, exactly if they reach
      alike. */
  lemma AccountsAgree(s: State, userID: string, extra: set<string>)
    requires ReachAlike(s, userID, extra)
    ensures forall s' | AccountStep(s, userID, Compact(extra), s') :: s' == AccountRows(s, userID, extra)
  {
    var ids := CredentialsOf(s, userID);
    var known := Compact(extra) + SessionInstallations(s.sessions, ids);
    var rows := KnownRows(s, ids, extra);
    hide CredentialsOf, SessionInstallations, HandoffInstallations, KnownRows, Compact, UsedCredentials;
    hide HandoffsAlike, PendingAlike, HandoffPass, SessionsWithout, HandoffsWithout, PendingWithout;
    PendingAlikeIff(s.pending, known + HandoffInstallations(s.handoffs, ids), rows);
    forall s' | AccountStep(s, userID, Compact(extra), s') ensures s' == AccountRows(s, userID, extra) {
      PassAlike(s.handoffs, s'.handoffs, ids, known, rows);
    }
  }

  lemma AccountsDisagree(s: State, userID: string, extra: set<string>) returns (s': State)
    requires !ReachAlike(s, userID, extra)
    ensures AccountStep(s, userID, Compact(extra), s') && s' != AccountRows(s, userID, extra)
  {
    var ids := CredentialsOf(s, userID);
    var known := Compact(extra) + SessionInstallations(s.sessions, ids);
    var rows := KnownRows(s, ids, extra);
    hide CredentialsOf, SessionInstallations, HandoffInstallations, KnownRows, Compact, UsedCredentials;
    hide HandoffsAlike, PendingAlike, HandoffPass, SessionsWithout, HandoffsWithout, PendingWithout;
    PendingAlikeIff(s.pending, known + HandoffInstallations(s.handoffs, ids), rows);
    var handoffs := PassDiffers(s.handoffs, ids, known, rows);
    s' := PassResult(s, userID, Compact(extra), handoffs);
  }

  /** Installation "i" has a handoff of user "u" and a login under way, and no session. */
  const LOGGING_IN :=
    State(map[HashOf("y") := Pending(Owner("i", HashOf("a")), "", 0, 9)],
          map[HashOf("x") := Handoff("c", Owner("i", HashOf("a")), "", HashOf("p"), 0, 9)], map[],
          map["c" := Credential("u", "", "")])

  lemma LoggingInKnows()
    ensures CredentialsOf(LOGGING_IN, "u") == {"c"} && HandoffInstallations(LOGGING_IN.handoffs, {"c"}) == {"i"}
    ensures SessionInstallations(LOGGING_IN.sessions, {"c"}) == {} && KnownRows(LOGGING_IN, {"c"}, {}) == {}
  {
    assert HashOf("x") in LOGGING_IN.handoffs;
  }

  lemma LoggingInForgotten()
    ensures AccountStep(LOGGING_IN, "u", {}, EMPTY)
  {
    LoggingInKnows();
    hide CredentialsOf, HandoffInstallations, SessionInstallations;
  }

  /** The memory store drops the login, the database keeps it. */
  lemma LoginKeptByDatabase()
    ensures Valid(LOGGING_IN) && AccountStep(LOGGING_IN, "u", {}, EMPTY) && EMPTY.pending == map[]
    ensures HashOf("y") in AccountRows(LOGGING_IN, "u", {}).pending
  {
    LoggingInForgotten();
    LoggingInKnows();
    hide AccountStep, CredentialsOf, HandoffInstallations, SessionInstallations, KnownRows, HandoffsWithout;
    hide SessionsWithout, UsedCredentials;
  }

  // ---------------------------------------------------------------- the request

  /** Which storage calls fail. Deliveries are deleted installation by installation, so that some may be gone by
      then. */
  datatype AccountFaults = AccountFaults(lookup: bool, binding: bool, authenticate: bool, targets: bool, delete: bool,
                                         deliveries: Option<set<string>>, revoke: bool)

  predicate Faultless(f: AccountFaults) {
    !f.lookup && !f.binding && !f.authenticate && !f.targets && !f.delete && f.deliveries.None? && !f.revoke
  }

  /** Whose session the caller presents, expired or not. */
  function SessionAccount(s: State, c: Caller): Result<string, AuthError> {
    var key := HashOf(c.token);
    if key !in s.sessions then Err(NotFound)
    else if !SameOwner(s.sessions[key].owner, Me(c)) then Err(DeviceMismatch)
    else if s.sessions[key].credentialID !in s.credentials then Err(NotFound)
    else if TrimSpace(s.credentials[s.sessions[key].credentialID].userID) == "" then Err(NotFound)
    else Ok(s.credentials[s.sessions[key].credentialID].userID)
  }

  /** The caller's installation, and those with a session of the account. */
  function Known(d: Devices, c: Caller, user: string): set<string> {
    {c.installationID} + SessionInstallations(d.auth.sessions, CredentialsOf(d.auth, TrimSpace(user)))
  }

  /** And those registered for it. */
  function Named(d: Devices, c: Caller, user: string): set<string> {
    Known(d, c, user) + set i | i in d.registrations && d.registrations[i].userID == user
  }

  function RemovedFor(registrations: map<string, Registered>, account: string, named: set<string>): set<string> {
    set i | i in registrations && (i in Compact(named) || (account != "" && registrations[i].userID == account))
  }

  function Unregistered(d: Devices, c: Caller, user: string): set<string> {
    RemovedFor(d.registrations, TrimSpace(user), Named(d, c, user))
  }

  function Touched(d: Devices, c: Caller, user: string): set<string> {
    Named(d, c, user) + Unregistered(d, c, user)
  }

  function WithoutInstallations(records: D.Records, installations: set<string>): D.Records {
    map id | id in records && records[id].installationID !in installations :: records[id]
  }

  /** What the request leaves when nothing fails. */
  function Finished(d: Devices, c: Caller, user: string): Devices {
    Devices(d.registrations - Unregistered(d, c, user), WithoutInstallations(d.deliveries, Touched(d, c, user)),
            AccountRows(d.auth, TrimSpace(user), Touched(d, c, user)))
  }

  function RevokeUser(d: Devices, c: Caller, user: string, faults: AccountFaults): (Devices, Answer) {
    if user == "" then (d, Unauthorized)
    else if faults.targets || faults.delete then (d, ServerError)
    else
      var unregistered := d.(registrations := d.registrations - Unregistered(d, c, user));
      var touched := Touched(d, c, user);
      if faults.deliveries.Some? then
        (unregistered.(deliveries := WithoutInstallations(d.deliveries, touched * faults.deliveries.value)),
         ServerError)
      else if faults.revoke then (unregistered.(deliveries := WithoutInstallations(d.deliveries, touched)), ServerError)
      else (Finished(d, c, user), NoContent)
  }

  function RevokeAll(d: Devices, c: Caller, faults: AccountFaults): (Devices, Answer) {
    if faults.lookup then (d, ServerError)
    else match SessionAccount(d.auth, c)
      case Ok(user) => RevokeUser(d, c, user, faults)
      case Err(DeviceMismatch) => (d, Forbidden)
      case Err(_) =>
        if faults.binding then (d, ServerError)
        else if AnyMatching(d.auth, Me(c)) then (d, Unauthorized)
        else if AnyForeign(d.auth, Me(c)) then (d, Forbidden)
        else if faults.authenticate then (d, ServerError)
        else if c.installationID !in d.registrations then (d, NoContent)
        else if !SecretMatches(d.registrations[c.installationID], c.deviceSecret) then (d, Forbidden)
        else RevokeUser(d, c, TrimSpace(d.registrations[c.installationID].userID), faults)
  }

  // ---------------------------------------------------------------- one attempt

  /** A caller as the request admits it, with a session of the account. */
  predicate SignedIn(d: Devices, c: Caller, user: string) {
    && c.installationID != "" && TrimSpace(c.installationID) == c.installationID
    && SessionAccount(d.auth, c) == Ok(user)
  }

  /** The registrations are gone, and some of the deliveries. */
  ghost predicate Partway(d: Devices, d': Devices, c: Caller, user: string) {
    && d'.auth == d.auth && d'.registrations == d.registrations - Unregistered(d, c, user)
    && (forall id | id in d'.deliveries :: id in d.deliveries && d'.deliveries[id] == d.deliveries[id])
    && (forall id | id in d.deliveries && id !in d'.deliveries ::
          d.deliveries[id].installationID in Touched(d, c, user))
  }

  /** An attempt achieves everything or reports an error, and then the caller's session and all other authentication
      records stay. */
  lemma AttemptOnAccount(d: Devices, c: Caller, user: string, faults: AccountFaults)
    requires SignedIn(d, c, user)
    ensures var (d', answer) := RevokeAll(d, c, faults);
      if answer == NoContent then d' == Finished(d, c, user)
      else answer == ServerError && !Faultless(faults) && (d' == d || Partway(d, d', c, user)) && SignedIn(d', c, user)
  {
    assert TrimSpace("") == "";
    hide Unregistered, Touched, AccountRows, TrimSpace;
  }

  /** What is left of the names once the registrations are gone. */
  lemma PartwayNames(d: Devices, d': Devices, c: Caller, user: string)
    requires Partway(d, d', c, user) && TrimSpace(user) == user != ""
    ensures Unregistered(d', c, user) == {} && Touched(d', c, user) == Known(d, c, user) <= Touched(d, c, user)
  {
    hide TrimSpace, CredentialsOf, SessionInstallations;
    assert Named(d', c, user) == Known(d, c, user);
    assert Compact(Known(d, c, user)) <= Compact(Named(d, c, user));
  }

  lemma StillPartway(d: Devices, d': Devices, c: Caller, user: string, faults: AccountFaults)
    requires SignedIn(d, c, user) && TrimSpace(user) == user && Partway(d, d', c, user)
    requires RevokeAll(d', c, faults).1 != NoContent
    ensures Partway(d, RevokeAll(d', c, faults).0, c, user)
  {
    assert user != "";
    AttemptOnAccount(d', c, user, faults);
    PartwayNames(d, d', c, user);
    var d'' := RevokeAll(d', c, faults).0;
    hide RevokeAll, Unregistered, Touched, AccountRows, TrimSpace, Known;
    assert d''.registrations == d'.registrations;
  }

  // ---------------------------------------------------------------- trying again

  /** Nothing of the caller's installation is left. */
  predicate Gone(d: Devices, c: Caller) {
    && HashOf(c.token) !in d.auth.sessions && c.installationID !in d.registrations
    && !AnyMatching(d.auth, Me(c)) && !AnyForeign(d.auth, Me(c))
  }

  /** A request that comes again after a success changes nothing. */
  lemma RepeatAfterAccount(d: Devices, c: Caller, faults: AccountFaults)
    requires Gone(d, c)
    ensures RevokeAll(d, c, faults).0 == d
    ensures RevokeAll(d, c, faults).1 ==
      if faults.lookup || faults.binding || faults.authenticate then ServerError else NoContent
  {
    hide AnyMatching, AnyForeign, RevokeUser;
  }

  lemma CallerIsKnown(d: Devices, c: Caller, user: string)
    requires SignedIn(d, c, user)
    ensures c.installationID in Compact(Named(d, c, user))
    ensures c.installationID in KnownRows(d.auth, CredentialsOf(d.auth, user), Touched(d, c, user))
  {
    hide CredentialsOf, SessionInstallations, Unregistered;
    assert c.installationID in Named(d, c, user) && c.installationID in Touched(d, c, user);
    assert c.installationID in Compact(Touched(d, c, user));
  }

  predicate NoneMine(s: State, me: Owner) {
    && (forall key | key in s.sessions :: !Mine(s.sessions[key].owner, me))
    && (forall key | key in s.pending :: !Mine(s.pending[key].owner, me))
    && (forall key | key in s.handoffs :: !Mine(s.handoffs[key].owner, me))
  }

  lemma RowsForget(s: State, user: string, extra: set<string>, me: Owner, key: Hash)
    requires me.installationID in KnownRows(s, CredentialsOf(s, user), extra) && OneSession(s.sessions)
    requires key in s.sessions && s.sessions[key].credentialID in CredentialsOf(s, user)
    requires Mine(s.sessions[key].owner, me)
    ensures NoneMine(AccountRows(s, user, extra), me) && key !in AccountRows(s, user, extra).sessions
  {
    hide KnownRows, CredentialsOf, UsedCredentials;
  }

  lemma NoneMineMeansNone(s: State, me: Owner)
    requires NoneMine(s, me)
    ensures !AnyMatching(s, me) && !AnyForeign(s, me)
  {
  }

  lemma FinishedIsGone(d: Devices, c: Caller, user: string)
    requires SignedIn(d, c, user) && TrimSpace(user) == user && OneSession(d.auth.sessions)
    ensures Gone(Finished(d, c, user), c)
  {
    CallerIsKnown(d, c, user);
    assert d.auth.sessions[HashOf(c.token)].credentialID in CredentialsOf(d.auth, user);
    hide TrimSpace, Compact, KnownRows, Named, Touched, CredentialsOf, AccountRows, NoneMine, AnyMatching, AnyForeign;
    RowsForget(d.auth, user, Touched(d, c, user), Me(c), HashOf(c.token));
    NoneMineMeansNone(AccountRows(d.auth, user, Touched(d, c, user)), Me(c));
  }

  function AfterAttempts(d: Devices, c: Caller, attempts: seq<AccountFaults>): Devices
    decreases |attempts|
  {
    if attempts == [] then d else AfterAttempts(RevokeAll(d, c, attempts[0]).0, c, attempts[1..])
  }

  predicate SomeFaultless(attempts: seq<AccountFaults>) {
    exists i | 0 <= i < |attempts| :: Faultless(attempts[i])
  }

  lemma {:induction false} GoneStays(d: Devices, c: Caller, attempts: seq<AccountFaults>)
    requires Gone(d, c)
    ensures AfterAttempts(d, c, attempts) == d
    decreases |attempts|
  {
    hide Gone, RevokeAll;
    if attempts != [] {
      RepeatAfterAccount(d, c, attempts[0]);
      GoneStays(d, c, attempts[1..]);
    }
  }

  /** The account has no credential and no registration left, so no session and no handoff either. */
  predicate AccountGone(d: Devices, user: string) {
    && Valid(d.auth) && Tidy(d.auth)
    && (forall id | id in d.auth.credentials :: d.auth.credentials[id].userID != user)
    && (forall i | i in d.registrations :: d.registrations[i].userID != user)
  }

  /** Who has no session of the account, and no secret or another than the registered one, changes nothing, whatever
      fails; nor does who presents the token of another device. */
  lemma StrangersChangeNothing(d: Devices, c: Caller, secret: string, faults: AccountFaults)
    requires SessionAccount(d.auth, c).Err?
    requires SessionAccount(d.auth, c) != Err(DeviceMismatch) ==>
      c.installationID in d.registrations && RegisteredWith(d.registrations[c.installationID], secret)
      && (c.deviceSecret != secret || c.deviceSecret == "")
    ensures RevokeAll(d, c, faults).0 == d && RevokeAll(d, c, faults).1 != NoContent
  {
    hide SessionAccount, AnyMatching, AnyForeign, RevokeUser, TrimSpace;
  }

  /** A session speaks for its account only in the hands of its own device, and only while its credential is stored. */
  lemma AccountOfSession(s: State, c: Caller, user: string)
    ensures SessionAccount(s, c) == Ok(user) <==>
      && HashOf(c.token) in s.sessions && s.sessions[HashOf(c.token)].owner == Me(c)
      && s.sessions[HashOf(c.token)].credentialID in s.credentials && TrimSpace(user) != ""
      && s.credentials[s.sessions[HashOf(c.token)].credentialID].userID == user
    ensures SessionAccount(s, c) == Err(DeviceMismatch) <==>
      HashOf(c.token) in s.sessions && s.sessions[HashOf(c.token)].owner != Me(c)
  {
    hide TrimSpace;
  }

  /** With the registered secret, and with nothing stored for the installation by the broker, the account of the
      registration goes with all its registrations. */
  lemma SecretRevokesAccount(d: Devices, c: Caller, faults: AccountFaults, i: string)
    requires HashOf(c.token) !in d.auth.sessions && !AnyMatching(d.auth, Me(c)) && !AnyForeign(d.auth, Me(c))
    requires c.installationID in d.registrations && c.deviceSecret != "" && Faultless(faults)
    requires RegisteredWith(d.registrations[c.installationID], c.deviceSecret)
    requires i in d.registrations && d.registrations[i].userID == TrimSpace(d.registrations[c.installationID].userID)
    ensures TrimSpace(d.registrations[c.installationID].userID) == "" ==>
      RevokeAll(d, c, faults) == (d, Unauthorized)
    ensures TrimSpace(d.registrations[c.installationID].userID) != "" ==>
      RevokeAll(d, c, faults).1 == NoContent && i !in RevokeAll(d, c, faults).0.registrations
  {
    var user := TrimSpace(d.registrations[c.installationID].userID);
    TrimTwice(d.registrations[c.installationID].userID);
    RemovedIff(d.registrations, TrimSpace(user), Named(d, c, user), i);
    hide AnyMatching, AnyForeign, TrimSpace, RemovedFor, AccountRows, Known, Touched, WithoutInstallations, Named;
  }

  /** A registration goes exactly if it is the account's, or its installation is one of those named, white space around
      the names apart; a blank name names nothing. */
  lemma RemovedIff(registrations: map<string, Registered>, account: string, named: set<string>, i: string)
    ensures i in RemovedFor(registrations, account, named) <==>
      && i in registrations
      && ((account != "" && registrations[i].userID == account)
          || (i != "" && exists raw | raw in named :: TrimSpace(raw) == i))
  {
    hide TrimSpace;
  }

  /** After a success nothing is left of the installations of the account's registrations: neither the registration nor
      deliveries, whether or not the account's identifier has white space around it. */
  lemma InstallationsGone(d: Devices, c: Caller, user: string, faults: AccountFaults, i: string)
    requires SignedIn(d, c, user) && RevokeAll(d, c, faults).1 == NoContent
    requires i in d.registrations && d.registrations[i].userID == user && i != "" && TrimSpace(i) == i
    ensures var d' := RevokeAll(d, c, faults).0;
      i !in d'.registrations && forall id | id in d'.deliveries :: d'.deliveries[id].installationID != i
  {
    RemovedIff(d.registrations, TrimSpace(user), Named(d, c, user), i);
    hide TrimSpace, RemovedFor, AccountRows, Known, SessionAccount, AnyMatching, AnyForeign, SecretMatches;
  }

  lemma NoneRegistered(registrations: map<string, Registered>, user: string, named: set<string>)
    requires user != ""
    ensures var left := registrations - RemovedFor(registrations, user, named);
      forall i | i in left :: left[i].userID != user
  {
    hide Compact;
  }

  lemma FinishedIsAccountGone(d: Devices, c: Caller, user: string)
    requires SignedIn(d, c, user) && TrimSpace(user) == user && Valid(d.auth)
    ensures AccountGone(Finished(d, c, user), user)
  {
    assert TrimSpace("") == "";
    hide TrimSpace, Valid, Tidy, AccountRows, Named, Touched, RemovedFor, SameOwner, WithoutInstallations;
    RowsRevoked(d.auth, user, Touched(d, c, user));
    NoneRegistered(d.registrations, user, Named(d, c, user));
  }

  /** However the attempts fail, after one without faults the account is gone. */
  lemma {:induction false} AttemptsRevokeAccount(d: Devices, c: Caller, user: string, attempts: seq<AccountFaults>)
    requires SignedIn(d, c, user) && TrimSpace(user) == user && Valid(d.auth) && SomeFaultless(attempts)
    ensures AccountGone(AfterAttempts(d, c, attempts), user) && Gone(AfterAttempts(d, c, attempts), c)
    decreases |attempts|
  {
    hide SignedIn, TrimSpace, RevokeAll, Gone, AccountGone, Faultless, Finished, Unregistered, Touched;
    var d' := RevokeAll(d, c, attempts[0]).0;
    AttemptOnAccount(d, c, user, attempts[0]);
    if RevokeAll(d, c, attempts[0]).1 == NoContent {
      FinishedIsAccountGone(d, c, user);
      FinishedIsGone(d, c, user);
      GoneStays(d', c, attempts[1..]);
    } else {
      var i :| 0 <= i < |attempts| && Faultless(attempts[i]);
      assert Faultless(attempts[1..][i - 1]);
      AttemptsRevokeAccount(d', c, user, attempts[1..]);
    }
  }

  // ---------------------------------------------------------------- what a retry no longer knows

  /** No delivery, login or handoff belongs to an installation that only the registrations name. */
  predicate NothingForgotten(d: Devices, c: Caller, user: string) {
    var ids := CredentialsOf(d.auth, user);
    var early, late := KnownRows(d.auth, ids, Touched(d, c, user)), KnownRows(d.auth, ids, Known(d, c, user));
    && (forall id | id in d.deliveries && d.deliveries[id].installationID in Touched(d, c, user) ::
          d.deliveries[id].installationID in Known(d, c, user))
    && (forall key | key in d.auth.pending && d.auth.pending[key].owner.installationID in early ::
          d.auth.pending[key].owner.installationID in late)
    && (forall key | key in d.auth.handoffs && d.auth.handoffs[key].credentialID !in ids
                     && d.auth.handoffs[key].owner.installationID in early ::
          d.auth.handoffs[key].owner.installationID in late)
  }

  lemma LateRowsAgree(s: State, user: string, early: set<string>, late: set<string>)
    requires late <= early
    ensures var ids := CredentialsOf(s, user);
      var a, b := KnownRows(s, ids, early), KnownRows(s, ids, late);
      && b <= a
      && (AccountRows(s, user, early) == AccountRows(s, user, late) <==>
          PendingWithout(s.pending, a) == PendingWithout(s.pending, b)
          && HandoffsWithout(s.handoffs, ids, a) == HandoffsWithout(s.handoffs, ids, b))
  {
    hide TrimSpace, CredentialsOf, SessionInstallations, SessionsWithout, PendingWithout, HandoffsWithout;
    hide UsedCredentials;
    assert Compact(late) <= Compact(early);
  }

  lemma PendingForgotten(pending: map<Hash, Pending>, early: set<string>, late: set<string>)
    requires late <= early
    ensures PendingWithout(pending, early) == PendingWithout(pending, late)
      <==> forall key | key in pending && pending[key].owner.installationID in early ::
        pending[key].owner.installationID in late
  {
    PendingAlikeIff(pending, early, late);
  }

  lemma HandoffsForgotten(handoffs: map<Hash, Handoff>, ids: set<string>, early: set<string>, late: set<string>)
    requires late <= early
    ensures HandoffsWithout(handoffs, ids, early) == HandoffsWithout(handoffs, ids, late)
      <==> forall key | key in handoffs && handoffs[key].credentialID !in ids
                        && handoffs[key].owner.installationID in early ::
             handoffs[key].owner.installationID in late
  {
    if key :| key in handoffs && handoffs[key].credentialID !in ids
              && handoffs[key].owner.installationID in early - late {
      assert key in HandoffsWithout(handoffs, ids, late) && key !in HandoffsWithout(handoffs, ids, early);
    }
  }

  lemma DeliveriesForgotten(records: D.Records, early: set<string>, late: set<string>)
    requires late <= early
    ensures WithoutInstallations(records, early) == WithoutInstallations(records, late)
      <==> forall id | id in records && records[id].installationID in early :: records[id].installationID in late
  {
    if id :| id in records && records[id].installationID in early - late {
      assert id in WithoutInstallations(records, late) && id !in WithoutInstallations(records, early);
    }
  }

  /** What a success leaves if it comes when the registrations are gone already and nothing else. */
  function FinishedLate(d: Devices, c: Caller, user: string): Devices {
    Devices(d.registrations - Unregistered(d, c, user), WithoutInstallations(d.deliveries, Known(d, c, user)),
            AccountRows(d.auth, user, Known(d, c, user)))
  }

  lemma LateIsEarlyIff(d: Devices, c: Caller, user: string)
    requires TrimSpace(user) == user
    ensures FinishedLate(d, c, user) == Finished(d, c, user) <==> NothingForgotten(d, c, user)
  {
    var ids := CredentialsOf(d.auth, user);
    var early, late := Touched(d, c, user), Known(d, c, user);
    assert late <= early;
    hide TrimSpace, Known, Touched, Unregistered, CredentialsOf, KnownRows, AccountRows, WithoutInstallations;
    hide PendingWithout, HandoffsWithout;
    LateRowsAgree(d.auth, user, early, late);
    DeliveriesForgotten(d.deliveries, early, late);
    PendingForgotten(d.auth.pending, KnownRows(d.auth, ids, early), KnownRows(d.auth, ids, late));
    HandoffsForgotten(d.auth.handoffs, ids, KnownRows(d.auth, ids, early), KnownRows(d.auth, ids, late));
  }

  lemma DeliveriesLate(records: D.Records, left: D.Records, early: set<string>, late: set<string>)
    requires forall id | id in left :: id in records && left[id] == records[id]
    requires forall id | id in records && id !in left :: records[id].installationID in early
    requires forall id | id in records && records[id].installationID in early :: records[id].installationID in late
    ensures WithoutInstallations(left, late) == WithoutInstallations(records, late)
  {
  }

  /** A success that comes later leaves what an early one leaves, up to deliveries that an attempt in between has
      deleted. */
  lemma PartwayFinishes(d: Devices, d': Devices, c: Caller, user: string)
    requires SignedIn(d, c, user) && TrimSpace(user) == user && Partway(d, d', c, user)
    ensures d'.deliveries == d.deliveries ==> Finished(d', c, user) == FinishedLate(d, c, user)
    ensures NothingForgotten(d, c, user) ==> Finished(d', c, user) == Finished(d, c, user)
  {
    assert TrimSpace("") == "";
    hide TrimSpace, Unregistered, AccountRows, KnownRows, Known, Touched, WithoutInstallations, CredentialsOf;
    hide SameOwner;
    PartwayNames(d, d', c, user);
    LateIsEarlyIff(d, c, user);
    if NothingForgotten(d, c, user) {
      DeliveriesLate(d.deliveries, d'.deliveries, Touched(d, c, user), Known(d, c, user));
    }
    assert d'.registrations - {} == d'.registrations;
  }

  lemma {:induction false} AttemptsMeetGoal(d: Devices, d': Devices, c: Caller, user: string,
                                            attempts: seq<AccountFaults>)
    requires SignedIn(d, c, user) && SignedIn(d', c, user) && TrimSpace(user) == user && OneSession(d.auth.sessions)
    requires NothingForgotten(d, c, user) && (d' == d || Partway(d, d', c, user))
    requires SomeFaultless(attempts)
    ensures AfterAttempts(d', c, attempts) == Finished(d, c, user)
    decreases |attempts|
  {
    hide SignedIn, TrimSpace, RevokeAll, Gone, Faultless, Finished, NothingForgotten, Partway;
    var d'' := RevokeAll(d', c, attempts[0]).0;
    AttemptOnAccount(d', c, user, attempts[0]);
    if d' != d {
      PartwayFinishes(d, d', c, user);
    }
    if RevokeAll(d', c, attempts[0]).1 == NoContent {
      FinishedIsGone(d, c, user);
      GoneStays(d'', c, attempts[1..]);
    } else {
      if d' != d {
        StillPartway(d, d', c, user, attempts[0]);
      }
      var i :| 0 <= i < |attempts| && Faultless(attempts[i]);
      assert Faultless(attempts[1..][i - 1]);
      AttemptsMeetGoal(d, d'', c, user, attempts[1..]);
    }
  }

  const NO_FAULTS_AT_ALL := AccountFaults(false, false, false, false, false, None, false)

  /** The deletion of deliveries fails at once, and the next attempt meets no fault. */
  const DELIVERIES_FAIL := [NO_FAULTS_AT_ALL.(deliveries := Some({})), NO_FAULTS_AT_ALL]

  lemma TwoAttempts(d: Devices, c: Caller, first: AccountFaults, second: AccountFaults)
    ensures AfterAttempts(d, c, [first, second]) == RevokeAll(RevokeAll(d, c, first).0, c, second).0
  {
    hide RevokeAll;
    var middle := RevokeAll(d, c, first).0;
    assert [first, second][1..] == [second] && [second][1..] == [];
    assert AfterAttempts(middle, c, [second]) == AfterAttempts(RevokeAll(middle, c, second).0, c, []);
  }

  lemma FirstFails(d: Devices, c: Caller, user: string)
    requires SignedIn(d, c, user)
    ensures RevokeAll(d, c, DELIVERIES_FAIL[0]).0 == d.(registrations := d.registrations - Unregistered(d, c, user))
  {
    assert TrimSpace("") == "";
    assert WithoutInstallations(d.deliveries, Touched(d, c, user) * {}) == d.deliveries;
    hide TrimSpace, Unregistered, Touched, Finished;
  }

  lemma SecondSucceeds(d: Devices, c: Caller, user: string)
    requires SignedIn(d, c, user) && TrimSpace(user) == user
    ensures AfterAttempts(d, c, DELIVERIES_FAIL) == FinishedLate(d, c, user)
  {
    var d' := d.(registrations := d.registrations - Unregistered(d, c, user));
    hide TrimSpace, SessionAccount, Unregistered, Touched, Finished, FinishedLate, RevokeAll;
    PartwayFinishes(d, d', c, user);
    FirstFails(d, c, user);
    AttemptOnAccount(d', c, user, NO_FAULTS_AT_ALL);
    TwoAttempts(d, c, DELIVERIES_FAIL[0], NO_FAULTS_AT_ALL);
  }

  /** Attempts that may fail leave what a first one without faults would have left, however they fail, exactly if no
      delivery, login or handoff belongs to an installation that only the registrations name: those are deleted first,
      and a retry does not know of it any more. */
  lemma RetriesAgreeIff(d: Devices, c: Caller, user: string)
    requires SignedIn(d, c, user) && TrimSpace(user) == user && OneSession(d.auth.sessions)
    ensures NothingForgotten(d, c, user) <==>
      forall attempts | SomeFaultless(attempts) :: AfterAttempts(d, c, attempts) == Finished(d, c, user)
  {
    hide SignedIn, TrimSpace, NothingForgotten, Finished, FinishedLate, AfterAttempts, OneSession;
    if NothingForgotten(d, c, user) {
      forall attempts | SomeFaultless(attempts) ensures AfterAttempts(d, c, attempts) == Finished(d, c, user) {
        AttemptsMeetGoal(d, d, c, user, attempts);
      }
    } else {
      assert Faultless(DELIVERIES_FAIL[1]);
      assert SomeFaultless(DELIVERIES_FAIL);
      SecondSucceeds(d, c, user);
      LateIsEarlyIff(d, c, user);
    }
  }

  lemma OneLetterIsTrimmed()
    ensures TrimSpace("u") == "u" && TrimSpace("i") == "i"
  {
    assert "u"[0] == 'u' && "i"[0] == 'i';
  }

  /** A second installation of the account without a session: its deliveries outlive the failure and the retry. */
  lemma DeliveryForgotten(d: Devices, c: Caller, r: D.Record)
    requires c == Caller("i", "s", "t") && r.installationID == "j"
    requires d.registrations == map["j" := Registered(Plain("s"), "u")] && d.deliveries == map["e" := r]
    requires d.auth == EMPTY.(sessions := map[HashOf("t") := Session("k", Me(c), 0, 9)],
                              credentials := map["k" := Credential("u", "", "")])
    ensures SignedIn(d, c, "u") && "e" in AfterAttempts(d, c, DELIVERIES_FAIL).deliveries
    ensures "e" !in Finished(d, c, "u").deliveries
  {
    OneLetterIsTrimmed();
    hide TrimSpace;
    assert "i"[0] != "j"[0];
    assert SignedIn(d, c, "u");
    SecondSucceeds(d, c, "u");
    assert "j" in d.registrations && "j" in Touched(d, c, "u");
    forall i | i in SessionInstallations(d.auth.sessions, CredentialsOf(d.auth, "u")) ensures i == "i" {
    }
    assert "j" !in Known(d, c, "u");
    hide AccountRows, Unregistered, AfterAttempts, RevokeAll;
  }

  /** A success ends the caller's session exactly if the account's identifier has no surrounding white space. */
  lemma SessionEndsIff(d: Devices, c: Caller, user: string)
    requires SignedIn(d, c, user)
    ensures HashOf(c.token) !in Finished(d, c, user).auth.sessions <==> TrimSpace(user) == user
  {
    hide TrimSpace, Touched, KnownRows, UsedCredentials;
  }

  // ---------------------------------------------------------------- the server

  class AccountServer {
    var registrations: map<string, Registered>
    var deliveries: D.Records
    var auth: State

    function Contents(): Devices
      reads this
    {
      Devices(registrations, deliveries, auth)
    }

    constructor ()
      ensures Contents() == Devices(map[], map[], EMPTY)
    {
      registrations, deliveries, auth := map[], map[], EMPTY;
    }

    /** Deletes deliveries installation by installation, in any order, until one deletion fails. */
    method DeleteDeliveries(installations: set<string>, fails: string -> bool)
      returns (ok: bool, ghost done: set<string>)
      modifies this`deliveries
      ensures done <= installations && deliveries == WithoutInstallations(old(deliveries), done)
      ensures if ok then done == installations else exists i | i in installations - done :: fails(i)
    {
      done := {};
      var todo := installations;
      while todo != {}
        invariant todo <= installations && done == installations - todo
        invariant deliveries == WithoutInstallations(old(deliveries), done)
      {
        var i :| i in todo;
        if fails(i) {
          return false, done;
        }
        deliveries := map id | id in deliveries && deliveries[id].installationID != i :: deliveries[id];
        todo, done := todo - {i}, done + {i};
      }
      ok := true;
    }

    /** `DeleteForAccount`: by account or by installation. */
    method DeleteForAccount(account: string, named: set<string>) returns (removed: set<string>)
      modifies this`registrations
      ensures removed == RemovedFor(old(registrations), account, named) && registrations == old(registrations) - removed
    {
      hide TrimSpace;
      removed := {};
      var todo := registrations.Keys;
      ghost var done: set<string> := {};
      while todo != {}
        invariant todo <= old(registrations).Keys && done == old(registrations).Keys - todo
        invariant removed == RemovedFor(old(registrations), account, named) * done
        invariant registrations == old(registrations) - removed
      {
        var i :| i in todo;
        if i in Compact(named) || (account != "" && registrations[i].userID == account) {
          removed, registrations := removed + {i}, registrations - {i};
        }
        todo, done := todo - {i}, done + {i};
      }
      assert removed == RemovedFor(old(registrations), account, named);
    }

    /** The installations the request names: the caller's, those with a session, and those registered for the
        account. */
    method CollectNamed(c: Caller, user: string) returns (named: set<string>)
      ensures named == Named(Contents(), c, user)
    {
      hide Known;
      named := Known(Contents(), c, user);
      var todo := registrations.Keys;
      while todo != {}
        invariant todo <= registrations.Keys
        invariant named == Known(Contents(), c, user) + set i | i in registrations && registrations[i].userID == user
                                                                && i !in todo
      {
        var i :| i in todo;
        if registrations[i].userID == user {
          named := named + {i};
        }
        todo := todo - {i};
      }
    }

    method RevokeEverywhere(c: Caller, user: string, faults: AccountFaults, fails: string -> bool)
      returns (answer: Answer, ghost met: AccountFaults)
      requires faults.deliveries.None?
      modifies this
      ensures met.(deliveries := None) == faults && (met.deliveries.Some? ==> exists i :: fails(i))
      ensures (Contents(), answer) == RevokeUser(old(Contents()), c, user, met)
    {
      hide TrimSpace, AccountRows, RemovedFor, Named, WithoutInstallations;
      met := faults;
      if user == "" {
        return Unauthorized, met;
      }
      if faults.targets || faults.delete {
        return ServerError, met;
      }
      ghost var before := Contents();
      var named := CollectNamed(c, user);
      var removed := DeleteForAccount(TrimSpace(user), named);
      var ok;
      ghost var done;
      ok, done := DeleteDeliveries(named + removed, fails);
      if !ok {
        met := faults.(deliveries := Some(done));
        assert Touched(before, c, user) * done == done;
        return ServerError, met;
      }
      if faults.revoke {
        return ServerError, met;
      }
      auth := AccountRows(auth, TrimSpace(user), named + removed);
      answer := NoContent;
    }

    method RevokeAllMobileSessions(c: Caller, faults: AccountFaults, fails: string -> bool)
      returns (answer: Answer, ghost met: AccountFaults)
      requires faults.deliveries.None?
      modifies this
      ensures met.(deliveries := None) == faults && (met.deliveries.Some? ==> exists i :: fails(i))
      ensures (Contents(), answer) == RevokeAll(old(Contents()), c, met)
    {
      hide AnyForeign, AnyMatching, RevokeUser, TrimSpace;
      met := faults;
      if faults.lookup {
        return ServerError, met;
      }
      var account := SessionAccount(auth, c);
      if account.Ok? {
        answer, met := RevokeEverywhere(c, account.value, faults, fails);
        return;
      }
      if account.error == DeviceMismatch {
        return Forbidden, met;
      }
      if faults.binding {
        return ServerError, met;
      }
      if AnyMatching(auth, Me(c)) {
        return Unauthorized, met;
      }
      if AnyForeign(auth, Me(c)) {
        return Forbidden, met;
      }
      if faults.authenticate {
        return ServerError, met;
      }
      if c.installationID !in registrations {
        return NoContent, met;
      }
      if !SecretMatches(registrations[c.installationID], c.deviceSecret) {
        return Forbidden, met;
      }
      answer, met := RevokeEverywhere(c, TrimSpace(registrations[c.installationID].userID), faults, fails);
    }
  }
}
