/** Building the channel assignment, and keeping one chat session per user who was given channels. */
module ChatSessions {
  import opened Text
  import opened Sorting
  import opened Registrations
  import opened ChatAssignment

  // ---------------------------------------------------------------- assignUserChatChannels

  lemma WatchersMeaning(registrations: seq<Registration>, channel: string)
    ensures channel in WatchersOf(registrations) <==> exists r | r in registrations :: Watches(r, channel)
  {
  }

  function FirstChannels(r: Registration, j: nat): Registration
    requires j <= |r.channelIDs|
  {
    r.(channelIDs := r.channelIDs[..j])
  }

  lemma OneMoreChannel(r: Registration, j: nat, c: string)
    requires j < |r.channelIDs|
    ensures Watches(FirstChannels(r, j + 1), c) <==>
      Watches(FirstChannels(r, j), c) || (c == TrimSpace(r.channelIDs[j]) && Watches(r, c))
  {
    var shorter, longer := FirstChannels(r, j), FirstChannels(r, j + 1);
    assert AnyRuleForChannel(r, c, ["mention", "reply", "highlight", "selected_user"])
      == AnyRuleForChannel(shorter, c, ["mention", "reply", "highlight", "selected_user"])
      == AnyRuleForChannel(longer, c, ["mention", "reply", "highlight", "selected_user"]) by {
      assert forall rule :: RuleConfiguredForChannel(r, rule, c) == RuleConfiguredForChannel(shorter, rule, c);
      assert forall rule :: RuleConfiguredForChannel(r, rule, c) == RuleConfiguredForChannel(longer, rule, c);
    }
    assert longer.channelIDs[j] == r.channelIDs[j];
    assert forall i | 0 <= i < j :: longer.channelIDs[i] == shorter.channelIDs[i] == r.channelIDs[i];
  }

  lemma OneMoreWatcher(before: seq<Registration>, r: Registration, j: nat, c: string)
    requires j < |r.channelIDs|
    ensures var a, b := before + [FirstChannels(r, j)], before + [FirstChannels(r, j + 1)];
      var added := c == TrimSpace(r.channelIDs[j]) && Watches(r, c);
      && (c in WatchersOf(b) <==> c in WatchersOf(a) || added)
      && UsersOf(b, c) == UsersOf(a, c) + (if added then {TrimSpace(r.userID)} else {})
      && (c !in WatchersOf(a) ==> UsersOf(a, c) == {})
  {
    hide TrimSpace, Watches, WatchersOf, UsersOf;
    OneMoreChannel(r, j, c);
    LastRegistration(before, FirstChannels(r, j), c);
    LastRegistration(before, FirstChannels(r, j + 1), c);
    NoWatchers(before + [FirstChannels(r, j)], c);
  }

  lemma NoWatchers(registrations: seq<Registration>, c: string)
    ensures c !in WatchersOf(registrations) ==> UsersOf(registrations, c) == {}
    ensures c in WatchersOf(registrations) ==> WatchersOf(registrations)[c] == UsersOf(registrations, c)
  {
  }

  function AddWatcher(watchers: Watchers, channel: string, user: string): Watchers {
    watchers[channel := (if channel in watchers then watchers[channel] else {}) + {user}]
  }

  /** What one more channel of the last registration adds to the watchers. */
  lemma AddChannel(before: seq<Registration>, r: Registration, j: nat)
    requires j < |r.channelIDs|
    ensures var channel := TrimSpace(r.channelIDs[j]);
      var had := WatchersOf(before + [FirstChannels(r, j)]);
      WatchersOf(before + [FirstChannels(r, j + 1)])
        == if Watches(r, channel) then AddWatcher(had, channel, TrimSpace(r.userID)) else had
  {
    hide TrimSpace, Watches, WatchersOf, UsersOf, FirstChannels, AddWatcher;
    var a, b := before + [FirstChannels(r, j)], before + [FirstChannels(r, j + 1)];
    var channel := TrimSpace(r.channelIDs[j]);
    forall c ensures OneMore(WatchersOf(a), WatchersOf(b), channel, TrimSpace(r.userID), Watches(r, channel), c) {
      OneMoreWatcher(before, r, j, c);
      NoWatchers(a, c);
      NoWatchers(b, c);
    }
    OneMoreAdds(WatchersOf(a), WatchersOf(b), channel, TrimSpace(r.userID), Watches(r, channel));
  }

  predicate OneMore(had: Watchers, has: Watchers, channel: string, user: string, added: bool, c: string) {
    && (c in has <==> c in had || (c == channel && added))
    && (c in has ==> has[c] == (if c in had then had[c] else {}) + (if c == channel && added then {user} else {}))
  }

  lemma OneMoreAdds(had: Watchers, has: Watchers, channel: string, user: string, added: bool)
    requires forall c :: OneMore(had, has, channel, user, added, c)
    ensures has == if added then AddWatcher(had, channel, user) else had
  {
    var want := if added then AddWatcher(had, channel, user) else had;
    forall c
      ensures c in has <==> c in want
      ensures c in has ==> has[c] == want[c]
    {
      assert OneMore(had, has, channel, user, added, c);
    }
  }

  lemma LastRegistration(before: seq<Registration>, r: Registration, channel: string)
    ensures channel in WatchersOf(before + [r]) <==> channel in WatchersOf(before) || Watches(r, channel)
    ensures UsersOf(before + [r], channel)
      == UsersOf(before, channel) + (if Watches(r, channel) then {TrimSpace(r.userID)} else {})
  {
    WatchersMeaning(before, channel);
    WatchersMeaning(before + [r], channel);
    assert forall x :: x in before + [r] <==> x in before || x == r;
  }

  /** A registration that watches nothing changes nothing. */
  lemma AddsNothing(before: seq<Registration>, r: Registration)
    requires TrimSpace(r.userID) == "" || r.channelIDs == []
    ensures WatchersOf(before + [r]) == WatchersOf(before)
  {
    assert forall c :: !Watches(r, c);
    hide Watches, TrimSpace, WatchersOf;
    forall c
      ensures c in WatchersOf(before + [r]) <==> c in WatchersOf(before)
      ensures UsersOf(before + [r], c) == UsersOf(before, c)
    {
      LastRegistration(before, r, c);
    }
  }

  method AddRegistration(had: Watchers, r: Registration, ghost before: seq<Registration>) returns (watchers: Watchers)
    requires had == WatchersOf(before)
    ensures watchers == WatchersOf(before + [r])
  {
    watchers := had;
    var userID := TrimSpace(r.userID);
    if userID == "" {
      AddsNothing(before, r);
      return;
    }
    AddsNothing(before, FirstChannels(r, 0));
    for j := 0 to |r.channelIDs|
      invariant watchers == WatchersOf(before + [FirstChannels(r, j)])
    {
      AddChannel(before, r, j);
      var channelID := TrimSpace(r.channelIDs[j]);
      if channelID == "" || !AnyRuleForChannel(r, channelID, ["mention", "reply", "highlight", "selected_user"]) {
        continue;
      }
      assert Watches(r, channelID);
      watchers := AddWatcher(watchers, channelID, userID);
    }
    assert FirstChannels(r, |r.channelIDs|) == r;
  }

  method CollectWatchers(registrations: seq<Registration>) returns (watchers: Watchers)
    ensures watchers == WatchersOf(registrations)
  {
    watchers := map[];
    for n := 0 to |registrations|
      invariant watchers == WatchersOf(registrations[..n])
    {
      watchers := AddRegistration(watchers, registrations[n], registrations[..n]);
      assert registrations[..n + 1] == registrations[..n] + [registrations[n]];
    }
    assert registrations[..|registrations|] == registrations;
  }

  /** Walk the candidates from the least loaded one and take the first that has room. */
  method GiveChannel(given: Assignment, users: set<string>, channel: string) returns (next: Assignment)
    ensures next == Place(given, users, channel)
  {
    var candidates := Sorted(Candidates(given, users));
    next := given;
    for k := 0 to |candidates|
      invariant next == given
      invariant forall i | 0 <= i < k :: candidates[i].rank >= MAX_USER_CHAT_CHANNELS
    {
      assert candidates[k] in candidates;
      var userID := candidates[k].name;
      if Load(given, userID) >= MAX_USER_CHAT_CHANNELS {
        continue;
      }
      next := Append(given, userID, channel);
      FirstIsLeast(Candidates(given, users));
      assert k == 0;
      break;
    }
    if users != {} && next == given {
      assert forall user | user in users :: Key(Load(given, user), user) in Candidates(given, users);
      FirstIsLeast(Candidates(given, users));
    }
  }

  lemma FirstIsLeast(keys: set<Key>)
    requires keys != {}
    ensures Sorted(keys) != [] && Sorted(keys)[0] == Least(keys)
  {
  }

  method SortLists(unsorted: Assignment) returns (given: Assignment)
    ensures given == map user | user in unsorted :: SortStrings(unsorted[user])
  {
    given := unsorted;
    var todo := given.Keys;
    while todo != {}
      invariant todo <= given.Keys == unsorted.Keys
      invariant forall user | user in given ::
        given[user] == if user in todo then unsorted[user] else SortStrings(unsorted[user])
    {
      var user :| user in todo;
      given := given[user := SortStrings(given[user])];
      todo := todo - {user};
    }
  }

  method GiveAll(channels: seq<string>, watchers: Watchers) returns (given: Assignment)
    requires forall channel | channel in channels :: channel in watchers
    ensures given == Greedy(channels, watchers)
  {
    given := map[];
    for n := 0 to |channels|
      invariant given == Greedy(channels[..n], watchers)
    {
      assert channels[..n + 1][..n] == channels[..n];
      given := GiveChannel(given, watchers[channels[n]], channels[n]);
    }
    assert channels[..|channels|] == channels;
  }

  method AssignUserChatChannels(registrations: seq<Registration>) returns (given: Assignment)
    ensures given == Assign(WatchersOf(registrations))
  {
    var watchers := CollectWatchers(registrations);
    OrderOfWatchers(watchers);
    given := GiveAll(ChannelOrder(watchers), watchers);
    given := SortLists(given);
  }

  // ---------------------------------------------------------------- session reconciliation

  /** A running session: the signature it is compared by, and the channels it was started with. */
  datatype Session = Session(signature: string, channels: seq<string>)

  type Sessions = map<string, Session>

  function Signature(digest: string -> string, channels: seq<string>): string {
    digest(Join(channels, '\0'))
  }

  function Fresh(digest: string -> string, channels: seq<string>): Session {
    Session(Signature(digest, channels), channels)
  }

  predicate Keeps(sessions: Sessions, desired: Assignment, digest: string -> string, user: string) {
    user in sessions && user in desired && sessions[user].signature == Signature(digest, desired[user])
  }

  function Stopped(sessions: Sessions, desired: Assignment, digest: string -> string): set<string> {
    set user | user in sessions && !Keeps(sessions, desired, digest, user)
  }

  function Started(sessions: Sessions, desired: Assignment, digest: string -> string): set<string> {
    set user | user in desired && !Keeps(sessions, desired, digest, user) && desired[user] != []
  }

  /** Sessions with the wanted signature go on, all others are replaced by what is desired. */
  function Reconciled(sessions: Sessions, desired: Assignment, digest: string -> string): Sessions {
    map user | user in desired && (Keeps(sessions, desired, digest, user) || desired[user] != []) ::
      if Keeps(sessions, desired, digest, user) then sessions[user]
      else Fresh(digest, desired[user])
  }

  lemma SessionCountMoves(sessions: Sessions, desired: Assignment, digest: string -> string)
    ensures |Reconciled(sessions, desired, digest)|
      == |sessions| + |Started(sessions, desired, digest)| - |Stopped(sessions, desired, digest)|
  {
    var next := Reconciled(sessions, desired, digest);
    var started, stopped := Started(sessions, desired, digest), Stopped(sessions, desired, digest);
    var kept := sessions.Keys - stopped;
    assert forall user :: user in next.Keys <==> user in kept || user in started;
    SplitSize(next.Keys, kept, started);
    SplitSize(sessions.Keys, kept, stopped);
  }

  lemma SplitSize<T>(whole: set<T>, a: set<T>, b: set<T>)
    requires a !! b && forall x :: x in whole <==> x in a || x in b
    ensures |whole| == |a| + |b|
  {
    assert whole == a + b;
  }

  /** A reconciliation that has nothing new to see starts and stops nothing. */
  lemma ReconcileIsIdempotent(sessions: Sessions, desired: Assignment, digest: string -> string)
    ensures var next := Reconciled(sessions, desired, digest);
      && Started(next, desired, digest) == {} && Stopped(next, desired, digest) == {}
      && Reconciled(next, desired, digest) == next
  {
  }

  predicate Genuine(sessions: Sessions, digest: string -> string) {
    forall user | user in sessions ::
      sessions[user].channels != [] && sessions[user].signature == Signature(digest, sessions[user].channels)
  }

  ghost predicate CollisionFree(digest: string -> string) {
    forall a, b :: digest(a) == digest(b) ==> a == b
  }

  predicate JoinSafe(channels: seq<string>) {
    channels != [] && forall channel | channel in channels :: '\0' !in channel
  }

  /** When identifiers hold no zero byte and the digest no collision, every session serves exactly the channels it
      should. */
  lemma SessionsServeTheAssignment(sessions: Sessions, desired: Assignment, digest: string -> string)
    requires Genuine(sessions, digest) && CollisionFree(digest)
    requires forall user | user in sessions :: JoinSafe(sessions[user].channels)
    requires forall user | user in desired :: JoinSafe(desired[user])
    ensures var next := Reconciled(sessions, desired, digest);
      Genuine(next, digest) && next.Keys == desired.Keys && forall user | user in next ::
        next[user].channels == desired[user]
  {
    var next := Reconciled(sessions, desired, digest);
    forall user | user in next ensures next[user].channels == desired[user] {
      if Keeps(sessions, desired, digest, user) {
        var p, q := sessions[user].channels, desired[user];
        assert digest(Join(p, '\0')) == digest(Join(q, '\0'));
        JoinInjective(p, q, '\0');
      }
    }
  }

  /** First loop: drop stale sessions, and strike the others off the wish list. */
  method StopStale(was: Sessions, desired: Assignment, digest: string -> string)
    returns (sessions: Sessions, stopped: nat, remaining: Assignment)
    ensures forall user :: user in sessions <==> Keeps(was, desired, digest, user)
    ensures forall user | user in sessions :: user in was && sessions[user] == was[user]
    ensures forall user :: user in remaining <==> user in desired && !Keeps(was, desired, digest, user)
    ensures forall user | user in remaining :: remaining[user] == desired[user]
    ensures stopped == |Stopped(was, desired, digest)|
  {
    sessions, remaining, stopped := was, desired, 0;
    var todo := was.Keys;
    ghost var gone := {};
    while todo != {}
      invariant todo <= was.Keys && gone !! todo
      invariant forall user :: user in gone <==> user in was && user !in todo && !Keeps(was, desired, digest, user)
      invariant forall user :: user in sessions <==> user in was && user !in gone
      invariant forall user | user in sessions :: sessions[user] == was[user]
      invariant forall user :: user in remaining <==>
        user in desired && (user in todo || !Keeps(was, desired, digest, user))
      invariant forall user | user in remaining :: remaining[user] == desired[user]
      invariant stopped == |gone|
    {
      var user :| user in todo;
      todo := todo - {user};
      if user in remaining && sessions[user].signature == Signature(digest, remaining[user]) {
        remaining := remaining - {user};
        continue;
      }
      sessions := sessions - {user};
      stopped := stopped + 1;
      gone := gone + {user};
    }
    assert gone == Stopped(was, desired, digest);
  }

  /** Second loop: start a session for everyone left on the wish list. */
  method StartMissing(kept: Sessions, remaining: Assignment, digest: string -> string)
    returns (sessions: Sessions, started: nat)
    ensures forall user :: user in sessions <==> user in kept || (user in remaining && remaining[user] != [])
    ensures forall user | user in sessions ::
      sessions[user] ==
      if user in remaining && remaining[user] != [] then Fresh(digest, remaining[user]) else kept[user]
    ensures started == |set user | user in remaining && remaining[user] != []|
  {
    sessions, started := kept, 0;
    var todo := remaining.Keys;
    ghost var begun := {};
    while todo != {}
      invariant todo <= remaining.Keys && begun !! todo
      invariant forall user :: user in begun <==> user in remaining && user !in todo && remaining[user] != []
      invariant forall user :: user in sessions <==> user in kept || user in begun
      invariant forall user | user in sessions ::
        sessions[user] == if user in begun then Fresh(digest, remaining[user]) else kept[user]
      invariant started == |begun|
    {
      var user :| user in todo;
      todo := todo - {user};
      if |remaining[user]| == 0 {
        continue;
      }
      sessions := sessions[user := Fresh(digest, remaining[user])];
      started := started + 1;
      begun := begun + {user};
    }
    assert begun == set user | user in remaining && remaining[user] != [];
  }

  method ReconcileSessions(was: Sessions, desired: Assignment, digest: string -> string)
    returns (sessions: Sessions, started: nat, stopped: nat)
    ensures sessions == Reconciled(was, desired, digest)
    ensures started == |Started(was, desired, digest)| && stopped == |Stopped(was, desired, digest)|
  {
    var remaining;
    sessions, stopped, remaining := StopStale(was, desired, digest);
    sessions, started := StartMissing(sessions, remaining, digest);
    assert (set user | user in remaining && remaining[user] != []) == Started(was, desired, digest);
    assert sessions == Reconciled(was, desired, digest);
  }

  class UserChatManager {
    const digest: string -> string
    const enabled: bool
    var sessions: Sessions

    constructor (digest: string -> string, enabled: bool)
      ensures this.digest == digest && this.enabled == enabled && sessions == map[]
    {
      this.digest := digest;
      this.enabled := enabled;
      sessions := map[];
    }

    method StopAll() returns (stopped: nat)
      modifies this
      ensures stopped == |old(sessions)| && sessions == map[]
    {
      stopped := |sessions|;
      while sessions != map[]
        decreases |sessions|
      {
        assert sessions.Keys != {};
        var user :| user in sessions;
        sessions := sessions - {user};
      }
    }

    method Reconcile(registrations: seq<Registration>) returns (started: nat, stopped: nat)
      modifies this
      ensures !enabled ==> started == 0 && stopped == |old(sessions)| && sessions == map[]
      ensures enabled ==>
        var desired := Assign(WatchersOf(registrations));
        && sessions == Reconciled(old(sessions), desired, digest)
        && started == |Started(old(sessions), desired, digest)|
        && stopped == |Stopped(old(sessions), desired, digest)|
      ensures |sessions| == |old(sessions)| + started - stopped
    {
      if !enabled {
        stopped := StopAll();
        return 0, stopped;
      }
      var desired := AssignUserChatChannels(registrations);
      SessionCountMoves(sessions, desired, digest);
      sessions, started, stopped := ReconcileSessions(sessions, desired, digest);
    }
  }

  /** Two reconciliations in a row, the second with the same registrations in any order, and repeated any number of
      times. */
  method ReconcileAgain(manager: UserChatManager, registrations: seq<Registration>, permuted: seq<Registration>)
    returns (started: nat, stopped: nat)
    requires forall r :: r in registrations <==> r in permuted
    modifies manager
    ensures started == 0 && stopped == 0
  {
    AssignIgnoresOrder(registrations, permuted);
    ghost var was := manager.sessions;
    var first, second := manager.Reconcile(registrations);
    ReconcileIsIdempotent(was, Assign(WatchersOf(registrations)), manager.digest);
    started, stopped := manager.Reconcile(permuted);
  }
}
