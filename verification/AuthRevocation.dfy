/** Revoking one device and one account: the in-memory store against the check-first statements of the database. */
module AuthRevocation {
  import opened Wrappers
  import opened AuthState

  // ---------------------------------------------------------------- one device

  predicate Mine(o: Owner, me: Owner) {
    o.installationID == me.installationID
  }

  /** Bound to the installation, but with another device secret. */
  predicate Foreign(o: Owner, me: Owner) {
    Mine(o, me) && !HashEqual(o.deviceHash, me.deviceHash)
  }

  function SessionOwner(r: Session): Owner { r.owner }
  function PendingOwner(r: Pending): Owner { r.owner }
  function HandoffOwner(r: Handoff): Owner { r.owner }

  predicate HasForeign<V>(records: map<Hash, V>, ownerOf: V -> Owner, me: Owner) {
    exists key | key in records :: Foreign(ownerOf(records[key]), me)
  }

  predicate HasMatching<V>(records: map<Hash, V>, ownerOf: V -> Owner, me: Owner) {
    exists key | key in records :: SameOwner(ownerOf(records[key]), me)
  }

  function WithoutMine<V>(records: map<Hash, V>, ownerOf: V -> Owner, me: Owner): map<Hash, V> {
    map key | key in records && !Mine(ownerOf(records[key]), me) :: records[key]
  }

  function Cleared(s: State, me: Owner): State {
    s.(sessions := WithoutMine(s.sessions, SessionOwner, me), pending := WithoutMine(s.pending, PendingOwner, me),
       handoffs := WithoutMine(s.handoffs, HandoffOwner, me))
  }

  predicate AnyForeign(s: State, me: Owner) {
    HasForeign(s.sessions, SessionOwner, me) || HasForeign(s.pending, PendingOwner, me)
    || HasForeign(s.handoffs, HandoffOwner, me)
  }

  predicate AnyMatching(s: State, me: Owner) {
    HasMatching(s.sessions, SessionOwner, me) || HasMatching(s.pending, PendingOwner, me)
    || HasMatching(s.handoffs, HandoffOwner, me)
  }

  /** The database looks at every record of the installation before it removes any. */
  function RevokeCheckedIn(s: State, me: Owner): (State, Result<nat, AuthError>) {
    if AnyForeign(s, me) then (s, Err(DeviceMismatch))
    else if !AnyMatching(s, me) then (s, Ok(0))
    else
      var cleared := Cleared(s, me);
      var removed := |s.sessions| - |cleared.sessions|;
      (WithoutUnused(cleared), Ok(if removed < 0 then 0 else removed))
  }

  /** A pass over one table that stops at a foreign record: by then any of the matching ones may be gone. */
  ghost predicate Interrupted<V>(before: map<Hash, V>, after: map<Hash, V>, ownerOf: V -> Owner, me: Owner) {
    Sub(after, before) && forall key | key in before && key !in after :: SameOwner(ownerOf(before[key]), me)
  }

  /** The memory store removes records of one table after the other and gives up at the first foreign one. */
  ghost predicate RevokeStep(s: State, me: Owner, s': State, outcome: Result<nat, AuthError>) {
    var cleared := Cleared(s, me);
    if HasForeign(s.sessions, SessionOwner, me) then
      s' == s.(sessions := s'.sessions) && Interrupted(s.sessions, s'.sessions, SessionOwner, me)
      && outcome == Err(DeviceMismatch)
    else if HasForeign(s.pending, PendingOwner, me) then
      && s' == s.(sessions := cleared.sessions, pending := s'.pending)
      && Interrupted(s.pending, s'.pending, PendingOwner, me) && outcome == Err(DeviceMismatch)
    else if HasForeign(s.handoffs, HandoffOwner, me) then
      && s' == s.(sessions := cleared.sessions, pending := cleared.pending, handoffs := s'.handoffs)
      && Interrupted(s.handoffs, s'.handoffs, HandoffOwner, me) && outcome == Err(DeviceMismatch)
    else
      s' == WithoutUnused(cleared) && outcome.Ok? && outcome.value == |s.sessions| - |cleared.sessions|
  }

  /** No matching record is in the table that has the first foreign one, nor in a table before it. */
  predicate ForeignFirst(s: State, me: Owner) {
    && !HasMatching(s.sessions, SessionOwner, me)
    && (HasForeign(s.sessions, SessionOwner, me)
        || (!HasMatching(s.pending, PendingOwner, me)
            && (HasForeign(s.pending, PendingOwner, me) || !HasMatching(s.handoffs, HandoffOwner, me))))
  }

  lemma WithoutMineSub<V>(records: map<Hash, V>, ownerOf: V -> Owner, me: Owner)
    ensures Sub(WithoutMine(records, ownerOf, me), records)
    ensures !HasForeign(records, ownerOf, me) && !HasMatching(records, ownerOf, me) ==>
      WithoutMine(records, ownerOf, me) == records
    ensures HasMatching(records, ownerOf, me) ==> WithoutMine(records, ownerOf, me) != records
  {
  }

  lemma InterruptedSub<V>(before: map<Hash, V>, after: map<Hash, V>, ownerOf: V -> Owner, me: Owner)
    requires Interrupted(before, after, ownerOf, me)
    ensures Sub(after, before) && Sub(WithoutMine(before, ownerOf, me), after)
  {
  }

  lemma SubSelf<V>(records: map<Hash, V>)
    ensures Sub(records, records)
  {
  }

  /** Every table lies between the old one and what is left without the installation. */
  ghost predicate Between(s: State, me: Owner, s': State) {
    var cleared := Cleared(s, me);
    && Sub(s'.sessions, s.sessions) && Sub(cleared.sessions, s'.sessions)
    && Sub(s'.pending, s.pending) && Sub(cleared.pending, s'.pending)
    && Sub(s'.handoffs, s.handoffs) && Sub(cleared.handoffs, s'.handoffs)
  }

  lemma RevokeBetween(s: State, me: Owner, s': State, outcome: Result<nat, AuthError>)
    requires RevokeStep(s, me, s', outcome)
    ensures Between(s, me, s')
    ensures (s'.credentials == s.credentials || s'.credentials == UsedCredentials(s'.(credentials := s.credentials)))
  {
    hide HasForeign, WithoutMine, Sub, Interrupted, UsedCredentials;
    WithoutMineSub(s.sessions, SessionOwner, me);
    WithoutMineSub(s.pending, PendingOwner, me);
    WithoutMineSub(s.handoffs, HandoffOwner, me);
    SubSelf(s.sessions);
    SubSelf(s.pending);
    SubSelf(s.handoffs);
    SubSelf(s'.sessions);
    SubSelf(s'.pending);
    SubSelf(s'.handoffs);
    if HasForeign(s.sessions, SessionOwner, me) {
      InterruptedSub(s.sessions, s'.sessions, SessionOwner, me);
    } else if HasForeign(s.pending, PendingOwner, me) {
      InterruptedSub(s.pending, s'.pending, PendingOwner, me);
    } else if HasForeign(s.handoffs, HandoffOwner, me) {
      InterruptedSub(s.handoffs, s'.handoffs, HandoffOwner, me);
    } else {
      assert s'.(credentials := s.credentials) == Cleared(s, me);
    }
  }

  lemma UsedStay(s: State, s': State)
    requires s'.credentials == s.credentials || s'.credentials == UsedCredentials(s'.(credentials := s.credentials))
    ensures forall id | id in s.credentials && Used(s'.sessions, s'.handoffs, id) :: id in s'.credentials
  {
  }

  /** Whatever happens to one device, the invariant holds and records of other installations stay. */
  lemma RevokeKeeps(s: State, me: Owner, s': State, outcome: Result<nat, AuthError>)
    requires Valid(s) && RevokeStep(s, me, s', outcome)
    ensures Valid(s') && Between(s, me, s')
    ensures outcome.Ok? ==> s'.sessions == Cleared(s, me).sessions && s'.pending == Cleared(s, me).pending
                            && s'.handoffs == Cleared(s, me).handoffs && Tidy(s')
  {
    hide Sub, Linked, UsedCredentials, WithoutMine, HasForeign, Used, Interrupted, Tidy;
    RevokeBetween(s, me, s', outcome);
    UsedStay(s, s');
    ShrinkKeeps(s, s');
    if outcome.Ok? {
      UnusedTidies(s, s');
    }
  }

  lemma UnusedTidies(s: State, s': State)
    requires Linked(s') && s'.credentials == UsedCredentials(s'.(credentials := s.credentials))
    ensures Tidy(s')
  {
  }

  // ---------------------------------------------------------------- when both stores agree

  /** Before the call: nothing foreign and something to remove or nothing unused lying about; or something foreign
      comes first. */
  predicate Agreeable(s: State, me: Owner) {
    if AnyForeign(s, me) then ForeignFirst(s, me)
    else AnyMatching(s, me) || UsedCredentials(s) == s.credentials
  }

  lemma NotInterrupted<V>(before: map<Hash, V>, after: map<Hash, V>, ownerOf: V -> Owner, me: Owner)
    requires Interrupted(before, after, ownerOf, me) && !HasMatching(before, ownerOf, me)
    ensures after == before
  {
  }

  lemma MayInterrupt<V>(before: map<Hash, V>, ownerOf: V -> Owner, me: Owner) returns (after: map<Hash, V>)
    requires HasMatching(before, ownerOf, me)
    ensures Interrupted(before, after, ownerOf, me) && after != before
  {
    var key :| key in before && SameOwner(ownerOf(before[key]), me);
    after := before - {key};
    assert key !in after;
  }

  /** In every order of iteration the memory store does what the database does, exactly if the state was agreeable. */
  lemma RevocationsAgree(s: State, me: Owner)
    requires Agreeable(s, me)
    ensures forall s', outcome | RevokeStep(s, me, s', outcome) :: (s', outcome) == RevokeCheckedIn(s, me)
  {
    hide HasForeign, HasMatching, WithoutMine, Interrupted, UsedCredentials;
    WithoutMineSub(s.sessions, SessionOwner, me);
    WithoutMineSub(s.pending, PendingOwner, me);
    WithoutMineSub(s.handoffs, HandoffOwner, me);
    SubSize(WithoutMine(s.sessions, SessionOwner, me), s.sessions);
    forall s', outcome | RevokeStep(s, me, s', outcome) ensures (s', outcome) == RevokeCheckedIn(s, me) {
      if HasForeign(s.sessions, SessionOwner, me) {
        NotInterrupted(s.sessions, s'.sessions, SessionOwner, me);
      } else if HasForeign(s.pending, PendingOwner, me) {
        NotInterrupted(s.pending, s'.pending, PendingOwner, me);
      } else if HasForeign(s.handoffs, HandoffOwner, me) {
        NotInterrupted(s.handoffs, s'.handoffs, HandoffOwner, me);
      }
    }
  }

  lemma RevocationsDisagree(s: State, me: Owner) returns (s': State, outcome: Result<nat, AuthError>)
    requires !Agreeable(s, me)
    ensures RevokeStep(s, me, s', outcome) && s' != RevokeCheckedIn(s, me).0
  {
    hide HasForeign, HasMatching, WithoutMine, Interrupted, UsedCredentials;
    WithoutMineSub(s.sessions, SessionOwner, me);
    WithoutMineSub(s.pending, PendingOwner, me);
    WithoutMineSub(s.handoffs, HandoffOwner, me);
    SubSize(WithoutMine(s.sessions, SessionOwner, me), s.sessions);
    var cleared := Cleared(s, me);
    outcome := Err(DeviceMismatch);
    if HasForeign(s.sessions, SessionOwner, me) {
      var sessions := MayInterrupt(s.sessions, SessionOwner, me);
      s' := s.(sessions := sessions);
    } else if HasForeign(s.pending, PendingOwner, me) {
      var pending := s.pending;
      if HasMatching(s.pending, PendingOwner, me) {
        pending := MayInterrupt(s.pending, PendingOwner, me);
      } else {
        NeverInterrupted(s.pending, PendingOwner, me);
      }
      s' := s.(sessions := cleared.sessions, pending := pending);
    } else if HasForeign(s.handoffs, HandoffOwner, me) {
      var handoffs := s.handoffs;
      if HasMatching(s.handoffs, HandoffOwner, me) {
        handoffs := MayInterrupt(s.handoffs, HandoffOwner, me);
      } else {
        NeverInterrupted(s.handoffs, HandoffOwner, me);
      }
      s' := s.(sessions := cleared.sessions, pending := cleared.pending, handoffs := handoffs);
    } else {
      s', outcome := WithoutUnused(cleared), Ok(|s.sessions| - |cleared.sessions|);
      assert cleared == s;
    }
  }

  lemma NeverInterrupted<V>(records: map<Hash, V>, ownerOf: V -> Owner, me: Owner)
    ensures Interrupted(records, records, ownerOf, me)
  {
  }

  /** A device that is refused may still have lost its session: here its login was also started with another device
      secret. */
  lemma RefusedButRemoved(s: State, s': State, me: Owner)
    requires me == Owner("i", HashOf("a"))
    requires s == State(map[HashOf("p") := Pending(Owner("i", HashOf("b")), "", 0, 9)], map[],
                        map[HashOf("t") := Session("c", me, 0, 9)], map["c" := Credential("u", "", "")])
    requires s' == s.(sessions := map[])
    ensures Valid(s) && RevokeStep(s, me, s', Err(DeviceMismatch)) && RevokeCheckedIn(s, me) == (s, Err(DeviceMismatch))
    ensures s' != s
  {
    assert HashOf("t") in s.sessions && HashOf("p") in s.pending;
    assert Foreign(s.pending[HashOf("p")].owner, me);
    assert HasForeign(s.pending, PendingOwner, me);
    assert !HasForeign(s.sessions, SessionOwner, me);
    assert WithoutMine(s.sessions, SessionOwner, me) == map[];
    NeverInterrupted(s.pending, PendingOwner, me);
  }

  // ---------------------------------------------------------------- one account

  function CredentialsOf(s: State, userID: string): set<string> {
    set id | id in s.credentials && s.credentials[id].userID == userID
  }

  /** Where the account has sessions, and what the caller adds. */
  function SessionInstallations(sessions: map<Hash, Session>, ids: set<string>): set<string> {
    set key | key in sessions && sessions[key].credentialID in ids :: sessions[key].owner.installationID
  }

  function HandoffInstallations(handoffs: map<Hash, Handoff>, ids: set<string>): set<string> {
    set key | key in handoffs && handoffs[key].credentialID in ids :: handoffs[key].owner.installationID
  }

  function SessionsWithout(sessions: map<Hash, Session>, ids: set<string>): map<Hash, Session> {
    map key | key in sessions && sessions[key].credentialID !in ids :: sessions[key]
  }

  function PendingWithout(pending: map<Hash, Pending>, installations: set<string>): map<Hash, Pending> {
    map key | key in pending && pending[key].owner.installationID !in installations :: pending[key]
  }

  /** The pass over the handoffs adds installations as it goes: what it meets on an installation before it knows of it
      stays. */
  ghost predicate HandoffPass(before: map<Hash, Handoff>, after: map<Hash, Handoff>, ids: set<string>,
                              installations: set<string>) {
    && Sub(after, before)
    && (forall key | key in before
                     && (before[key].credentialID in ids || before[key].owner.installationID in installations) ::
                       key !in after)
    && (forall key | key in before && key !in after ::
          before[key].owner.installationID in installations + HandoffInstallations(before, ids))
  }

  ghost predicate AccountStep(s: State, userID: string, extra: set<string>, s': State) {
    var ids := CredentialsOf(s, userID);
    var known := extra + SessionInstallations(s.sessions, ids);
    && s'.sessions == SessionsWithout(s.sessions, ids)
    && HandoffPass(s.handoffs, s'.handoffs, ids, known)
    && s'.pending == PendingWithout(s.pending, known + HandoffInstallations(s.handoffs, ids))
    && s'.credentials == UsedCredentials(s'.(credentials := s.credentials - ids))
  }

  lemma AccountShrinks(s: State, userID: string, extra: set<string>, s': State)
    requires AccountStep(s, userID, extra, s')
    ensures Shrinks(s, s')
  {
  }

  /** In every order: the account's sessions, handoffs and credentials are gone, exactly the credentials in use remain,
      and the sessions of other accounts are untouched. */
  lemma AccountRevoked(s: State, userID: string, extra: set<string>, s': State)
    requires Valid(s) && AccountStep(s, userID, extra, s')
    ensures Valid(s') && Tidy(s')
    ensures forall id | id in s'.credentials ::
      id in s.credentials && s'.credentials[id] == s.credentials[id] && s.credentials[id].userID != userID
    ensures forall key | key in s'.sessions ::
      key in s.sessions && s.credentials[s.sessions[key].credentialID].userID != userID
    ensures forall key | key in s.sessions && key !in s'.sessions ::
      s.credentials[s.sessions[key].credentialID].userID == userID
    ensures forall key | key in s'.handoffs ::
      key in s.handoffs && s.credentials[s.handoffs[key].credentialID].userID != userID
  {
    AccountShrinks(s, userID, extra, s');
    assert forall key | key in s.sessions :: s.sessions[key].credentialID in s.credentials.Keys;
    assert forall key | key in s.handoffs :: s.handoffs[key].credentialID in s.credentials.Keys;
    assert Linked(s') && Smaller(s, s') by {
      hide Shrinks, Linked, AccountStep;
      ShrinkKeeps(s, s');
    }
    assert Tidy(s') by {
      hide *;
      AccountTidies(s, userID, extra, s');
    }
    hide Linked, Tidy, Shrinks, Used;
  }

  lemma AccountTidies(s: State, userID: string, extra: set<string>, s': State)
    requires AccountStep(s, userID, extra, s') && Linked(s')
    ensures Tidy(s')
  {
  }

  /** No handoff of another account shares an installation that only a handoff of this account makes known. */
  predicate Separate(s: State, userID: string, extra: set<string>) {
    var ids := CredentialsOf(s, userID);
    var known := extra + SessionInstallations(s.sessions, ids);
    forall key | key in s.handoffs && s.handoffs[key].owner.installationID in HandoffInstallations(s.handoffs, ids) ::
      s.handoffs[key].credentialID in ids || s.handoffs[key].owner.installationID in known
  }

  lemma SeparateIsDetermined(s: State, userID: string, extra: set<string>, a: State, b: State)
    requires Separate(s, userID, extra) && AccountStep(s, userID, extra, a) && AccountStep(s, userID, extra, b)
    ensures a == b
  {
  }

  function PassResult(s: State, userID: string, extra: set<string>, handoffs: map<Hash, Handoff>): State {
    var ids := CredentialsOf(s, userID);
    var known := extra + SessionInstallations(s.sessions, ids);
    WithoutUnused(s.(sessions := SessionsWithout(s.sessions, ids), handoffs := handoffs,
                     pending := PendingWithout(s.pending, known + HandoffInstallations(s.handoffs, ids)), credentials :=
                       s.credentials - ids))
  }

  /** Otherwise two orders of iteration leave different handoffs behind. */
  lemma MixedDependsOnOrder(s: State, userID: string, extra: set<string>) returns (a: State, b: State)
    requires !Separate(s, userID, extra)
    ensures AccountStep(s, userID, extra, a) && AccountStep(s, userID, extra, b) && a.handoffs != b.handoffs
  {
    var ids := CredentialsOf(s, userID);
    var known := extra + SessionInstallations(s.sessions, ids);
    var all := known + HandoffInstallations(s.handoffs, ids);
    var some := map key | key in s.handoffs && s.handoffs[key].credentialID !in ids
                          && s.handoffs[key].owner.installationID !in known :: s.handoffs[key];
    var none := map key | key in s.handoffs && s.handoffs[key].credentialID !in ids
                          && s.handoffs[key].owner.installationID !in all :: s.handoffs[key];
    var key :| key in s.handoffs && s.handoffs[key].owner.installationID in HandoffInstallations(s.handoffs, ids)
      && s.handoffs[key].credentialID !in ids && s.handoffs[key].owner.installationID !in known;
    assert key in some && key !in none;
    assert HandoffPass(s.handoffs, some, ids, known) && HandoffPass(s.handoffs, none, ids, known) by {
      assert forall k | k in s.handoffs && s.handoffs[k].credentialID in ids ::
        s.handoffs[k].owner.installationID in HandoffInstallations(s.handoffs, ids);
    }
    hide HandoffPass, SessionsWithout, PendingWithout, UsedCredentials, HandoffInstallations, SessionInstallations;
    hide CredentialsOf;
    a, b := PassResult(s, userID, extra, some), PassResult(s, userID, extra, none);
  }

  /** Installation "i" has a handoff of user "u" and, started with another device secret, one of user "v". */
  lemma TwoHandoffsDepend(s: State) returns (a: State, b: State)
    requires s.pending == map[] && s.sessions == map[]
    requires s.credentials == map["c" := Credential("u", "", ""), "d" := Credential("v", "", "")]
    requires s.handoffs == map[HashOf("x") := Handoff("c", Owner("i", HashOf("a")), "", HashOf("p"), 0, 9),
                               HashOf("y") := Handoff("d", Owner("i", HashOf("b")), "", HashOf("q"), 0, 9)]
    ensures Valid(s) && AccountStep(s, "u", {}, a) && AccountStep(s, "u", {}, b) && a.handoffs != b.handoffs
  {
    TwoHandoffsAreValid(s);
    assert "u"[0] != "v"[0] && "x"[0] != "y"[0];
    assert "c" in CredentialsOf(s, "u") && "d" !in CredentialsOf(s, "u");
    assert HashOf("x") in s.handoffs && HashOf("y") in s.handoffs;
    assert s.handoffs[HashOf("x")].owner.installationID in HandoffInstallations(s.handoffs, CredentialsOf(s, "u"));
    assert SessionInstallations(s.sessions, CredentialsOf(s, "u")) == {};
    hide Valid, AccountStep, CredentialsOf, HandoffInstallations;
    a, b := MixedDependsOnOrder(s, "u", {});
  }

  lemma TwoHandoffsAreValid(s: State)
    requires s.pending == map[] && s.sessions == map[]
    requires s.credentials == map["c" := Credential("u", "", ""), "d" := Credential("v", "", "")]
    requires s.handoffs == map[HashOf("x") := Handoff("c", Owner("i", HashOf("a")), "", HashOf("p"), 0, 9),
                               HashOf("y") := Handoff("d", Owner("i", HashOf("b")), "", HashOf("q"), 0, 9)]
    ensures Valid(s)
  {
    assert "a"[0] != "b"[0];
  }
}
