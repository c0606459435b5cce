/** Spreading chat channels over the users who watch them, at most one hundred to each user. */
module ChatAssignment {
  import Sets
  import opened Text
  import opened Sorting
  import opened Registrations

  const MAX_USER_CHAT_CHANNELS := 100

  /** The users who watch each channel. */
  type Watchers = map<string, set<string>>

  /** The channels given to each user. */
  type Assignment = map<string, seq<string>>

  // ---------------------------------------------------------------- who watches what

  predicate Watches(registration: Registration, channel: string) {
    && TrimSpace(registration.userID) != ""
    && channel != ""
    && (exists i | 0 <= i < |registration.channelIDs| :: TrimSpace(registration.channelIDs[i]) == channel)
    && AnyRuleForChannel(registration, channel, ["mention", "reply", "highlight", "selected_user"])
  }

  function UsersOf(registrations: seq<Registration>, channel: string): set<string> {
    set r | r in registrations && Watches(r, channel) :: TrimSpace(r.userID)
  }

  function ChannelsOf(registrations: seq<Registration>): set<string> {
    set r, raw | r in registrations && raw in r.channelIDs && Watches(r, TrimSpace(raw)) :: TrimSpace(raw)
  }

  function WatchersOf(registrations: seq<Registration>): Watchers {
    map channel | channel in ChannelsOf(registrations) :: UsersOf(registrations, channel)
  }

  // ---------------------------------------------------------------- the greedy choice

  function Load(given: Assignment, user: string): nat {
    if user in given then |given[user]| else 0
  }

  function Candidates(given: Assignment, users: set<string>): set<Key> {
    set user | user in users :: Key(Load(given, user), user)
  }

  function Append(given: Assignment, user: string, channel: string): Assignment {
    given[user := (if user in given then given[user] else []) + [channel]]
  }

  /** Give a channel to its least loaded watcher, unless even that one is full. */
  function Place(given: Assignment, users: set<string>, channel: string): Assignment {
    if users == {} then given
    else
      assert exists user :: user in users;
      assert forall user | user in users :: Key(Load(given, user), user) in Candidates(given, users);
      var best := Least(Candidates(given, users));
      if best.rank < MAX_USER_CHAT_CHANNELS then Append(given, best.name, channel) else given
  }

  /** Channels with few watchers come first. */
  function ChannelOrder(watchers: Watchers): seq<string> {
    Names(Sorted(set channel | channel in watchers :: Key(|watchers[channel]|, channel)))
  }

  function Greedy(order: seq<string>, watchers: Watchers): Assignment
    requires forall channel | channel in order :: channel in watchers
  {
    if order == [] then map[]
    else
      var last := |order| - 1;
      Place(Greedy(order[..last], watchers), watchers[order[last]], order[last])
  }

  function SortStrings(names: seq<string>): seq<string> {
    SortNames(set name | name in names)
  }

  function Assign(watchers: Watchers): Assignment {
    OrderOfWatchers(watchers);
    var given := Greedy(ChannelOrder(watchers), watchers);
    map user | user in given :: SortStrings(given[user])
  }

  lemma OrderOfWatchers(watchers: Watchers)
    ensures forall channel :: channel in ChannelOrder(watchers) <==> channel in watchers
    ensures forall i, j | 0 <= i < j < |ChannelOrder(watchers)| ::
      ChannelOrder(watchers)[i] != ChannelOrder(watchers)[j]
  {
    var keys := set channel | channel in watchers :: Key(|watchers[channel]|, channel);
    NamesList(keys);
    forall channel ensures channel in ChannelOrder(watchers) <==> channel in watchers {
      assert channel in watchers ==> Key(|watchers[channel]|, channel) in keys;
    }
  }

  // ---------------------------------------------------------------- what the choice guarantees

  /** Every list respects the limit, holds no channel twice and only channels its user watches. */
  predicate WithinLimits(given: Assignment, watchers: Watchers) {
    forall user | user in given ::
      && |given[user]| <= MAX_USER_CHAT_CHANNELS
      && Distinct(given[user])
      && forall channel | channel in given[user] :: channel in watchers && user in watchers[channel]
  }

  predicate AtMostOneUserEach(given: Assignment) {
    forall u, v, channel | u in given && v in given && channel in given[u] && channel in given[v] :: u == v
  }

  predicate Covered(given: Assignment, channel: string) {
    exists user | user in given :: channel in given[user]
  }

  /** A channel nobody got has only watchers who are exactly at the limit. */
  predicate LeftOut(given: Assignment, users: set<string>) {
    forall user | user in users :: Load(given, user) == MAX_USER_CHAT_CHANNELS
  }

  predicate Maximal(given: Assignment, watchers: Watchers, channels: set<string>) {
    forall channel | channel in channels && channel in watchers ::
      Covered(given, channel) || LeftOut(given, watchers[channel])
  }

  lemma PlaceKeeps(given: Assignment, watchers: Watchers, done: set<string>, channel: string)
    requires channel in watchers && channel !in done
    requires WithinLimits(given, watchers) && AtMostOneUserEach(given) && Maximal(given, watchers, done)
    requires forall c | Covered(given, c) :: c in done
    ensures var next := Place(given, watchers[channel], channel);
      && WithinLimits(next, watchers) && AtMostOneUserEach(next)
      && Maximal(next, watchers, done + {channel})
      && forall c | Covered(next, c) :: c in done + {channel}
  {
    var users := watchers[channel];
    var next := Place(given, users, channel);
    if users != {} {
      var candidates := Candidates(given, users);
      assert forall user | user in users :: Key(Load(given, user), user) in candidates;
      var best := Least(candidates);
      if best.rank < MAX_USER_CHAT_CHANNELS {
        PlacedAt(given, watchers, done, channel, best.name);
      } else {
        forall user | user in users ensures Load(given, user) == MAX_USER_CHAT_CHANNELS {
          assert KeyLeq(best, Key(Load(given, user), user));
        }
        assert LeftOut(next, users);
      }
    }
  }

  lemma PlacedAt(given: Assignment, watchers: Watchers, done: set<string>, channel: string, user: string)
    requires channel in watchers && channel !in done && user in watchers[channel]
    requires Load(given, user) < MAX_USER_CHAT_CHANNELS
    requires WithinLimits(given, watchers) && AtMostOneUserEach(given) && Maximal(given, watchers, done)
    requires forall c | Covered(given, c) :: c in done
    ensures var next := Append(given, user, channel);
      && WithinLimits(next, watchers) && AtMostOneUserEach(next)
      && Maximal(next, watchers, done + {channel})
      && forall c | Covered(next, c) :: c in done + {channel}
  {
    var next := Append(given, user, channel);
    var before := if user in given then given[user] else [];
    assert forall u | u in given && channel in given[u] :: Covered(given, channel);
    assert forall c :: c in next[user] <==> c in before || c == channel;
    forall c | c in done + {channel} && c in watchers ensures Covered(next, c) || LeftOut(next, watchers[c]) {
      if c == channel {
        assert channel in next[user];
      } else if Covered(given, c) {
        var u :| u in given && c in given[u];
        assert c in next[u];
      } else {
        assert LeftOut(given, watchers[c]);
        assert user !in watchers[c];
      }
    }
    forall c | Covered(next, c) ensures c in done + {channel} {
      var u :| u in next && c in next[u];
      assert c == channel || Covered(given, c);
    }
  }

  lemma {:induction false} GreedyKeeps(order: seq<string>, watchers: Watchers)
    requires Distinct(order) && forall channel | channel in order :: channel in watchers
    ensures var given := Greedy(order, watchers);
      && WithinLimits(given, watchers) && AtMostOneUserEach(given)
      && Maximal(given, watchers, set c | c in order)
      && forall c | Covered(given, c) :: c in order
  {
    if order != [] {
      var last := |order| - 1;
      var rest := order[..last];
      GreedyKeeps(rest, watchers);
      var done := set c | c in rest;
      assert order == rest + [order[last]];
      PlaceKeeps(Greedy(rest, watchers), watchers, done, order[last]);
      assert (set c | c in order) == done + {order[last]};
    }
  }

  lemma SortKeepsNames(names: seq<string>)
    requires Distinct(names)
    ensures Distinct(SortStrings(names)) && |SortStrings(names)| == |names|
    ensures forall name :: name in SortStrings(names) <==> name in names
  {
    SortNamesList(set name | name in names);
    SameSizeLists(SortStrings(names), names);
  }

  lemma SameSizeLists(xs: seq<string>, ys: seq<string>)
    requires Distinct(xs) && Distinct(ys) && forall name :: name in xs <==> name in ys
    ensures |xs| == |ys|
  {
    DistinctSize(xs);
    DistinctSize(ys);
    assert (set name | name in xs) == (set name | name in ys);
  }

  lemma {:induction false} DistinctSize(xs: seq<string>)
    requires Distinct(xs)
    ensures |set name | name in xs| == |xs|
  {
    if xs != [] {
      DistinctSize(xs[1..]);
      assert xs == [xs[0]] + xs[1..];
      assert (set name | name in xs) == (set name | name in xs[1..]) + {xs[0]};
    }
  }

  /** The assignment respects every limit, and it leaves a channel out only when all its watchers are full. */
  lemma AssignIsMaximal(watchers: Watchers)
    ensures WithinLimits(Assign(watchers), watchers) && AtMostOneUserEach(Assign(watchers))
    ensures Maximal(Assign(watchers), watchers, watchers.Keys)
  {
    OrderOfWatchers(watchers);
    var order := ChannelOrder(watchers);
    GreedyKeeps(order, watchers);
    var given, sorted := Greedy(order, watchers), Assign(watchers);
    forall user | user in given
      ensures |sorted[user]| == |given[user]| && Distinct(sorted[user])
      ensures forall name :: name in sorted[user] <==> name in given[user]
    {
      SortKeepsNames(given[user]);
    }
    forall channel | channel in watchers ensures Covered(sorted, channel) || LeftOut(sorted, watchers[channel]) {
      assert channel in set c | c in order;
      if Covered(given, channel) {
        var user :| user in given && channel in given[user];
        assert channel in sorted[user];
      } else {
        assert LeftOut(given, watchers[channel]);
      }
    }
  }

  // ---------------------------------------------------------------- half of the optimum

  /** Any other way to give channels to watchers, at most one hundred to each. */
  ghost predicate Feasible(choice: map<string, string>, watchers: Watchers) {
    && (forall channel | channel in choice :: channel in watchers && choice[channel] in watchers[channel])
    && forall user :: |Held(choice, choice.Keys, {user})| <= MAX_USER_CHAT_CHANNELS
  }

  /** The channels among `channels` that `choice` gives to one of `users`. */
  function Held(choice: map<string, string>, channels: set<string>, users: set<string>): set<string> {
    set channel | channel in channels && channel in choice && choice[channel] in users
  }

  function CoveredBy(given: Assignment, users: set<string>): set<string> {
    set user, channel | user in users && user in given && channel in given[user] :: channel
  }

  function CoveredChannels(given: Assignment): set<string> {
    CoveredBy(given, given.Keys)
  }

  lemma {:induction false} HeldIsBounded(choice: map<string, string>, watchers: Watchers, channels: set<string>,
                                         users: set<string>)
    requires Feasible(choice, watchers) && channels <= choice.Keys
    ensures |Held(choice, channels, users)| <= MAX_USER_CHAT_CHANNELS * |users|
  {
    if users == {} {
      assert Held(choice, channels, users) == {};
    } else {
      var user :| user in users;
      var rest := users - {user};
      HeldIsBounded(choice, watchers, channels, rest);
      assert Held(choice, channels, users) == Held(choice, channels, rest) + Held(choice, channels, {user});
      Sets.SubsetSize(Held(choice, channels, {user}), Held(choice, choice.Keys, {user}));
    }
  }

  lemma {:induction false} FullUsersCover(given: Assignment, watchers: Watchers, users: set<string>)
    requires WithinLimits(given, watchers) && AtMostOneUserEach(given)
    requires users <= given.Keys && forall user | user in users :: |given[user]| == MAX_USER_CHAT_CHANNELS
    ensures |CoveredBy(given, users)| == MAX_USER_CHAT_CHANNELS * |users|
  {
    if users == {} {
      assert CoveredBy(given, users) == {};
    } else {
      var user :| user in users;
      var rest := users - {user};
      FullUsersCover(given, watchers, rest);
      var own := set channel | channel in given[user];
      DistinctSize(given[user]);
      assert CoveredBy(given, users) == CoveredBy(given, rest) + own;
      assert CoveredBy(given, rest) !! own;
    }
  }

  /** A channel the choice covers and the assignment does not is held by a user at the limit. */
  lemma MissedAreHeldByFull(given: Assignment, watchers: Watchers, choice: map<string, string>, full: set<string>)
    requires Maximal(given, watchers, watchers.Keys) && Feasible(choice, watchers)
    requires full == set user | user in given && |given[user]| == MAX_USER_CHAT_CHANNELS
    ensures var missed := choice.Keys - CoveredChannels(given); missed == Held(choice, missed, full)
  {
  }

  lemma MaximalIsHalfOptimal(given: Assignment, watchers: Watchers, choice: map<string, string>)
    requires WithinLimits(given, watchers) && AtMostOneUserEach(given) && Maximal(given, watchers, watchers.Keys)
    requires Feasible(choice, watchers)
    ensures |choice| <= 2 * |CoveredChannels(given)|
  {
    var covered := CoveredChannels(given);
    var full := set user | user in given && |given[user]| == MAX_USER_CHAT_CHANNELS;
    var missed := choice.Keys - covered;
    MissedAreHeldByFull(given, watchers, choice, full);
    HeldIsBounded(choice, watchers, missed, full);
    FullUsersCover(given, watchers, full);
    Sets.SubsetSize(CoveredBy(given, full), covered);
    Sets.SubsetSize(choice.Keys * covered, covered);
    assert choice.Keys == missed + choice.Keys * covered;
  }

  /** No feasible choice covers more than twice the channels of the greedy assignment. */
  lemma AssignIsHalfOptimal(watchers: Watchers, choice: map<string, string>)
    requires Feasible(choice, watchers)
    ensures |choice| <= 2 * |CoveredChannels(Assign(watchers))|
  {
    AssignIsMaximal(watchers);
    MaximalIsHalfOptimal(Assign(watchers), watchers, choice);
  }

  // ---------------------------------------------------------------- determinism

  /** Only the set of registrations matters: neither their order nor repetition changes the assignment. */
  lemma AssignIgnoresOrder(left: seq<Registration>, right: seq<Registration>)
    requires forall r :: r in left <==> r in right
    ensures WatchersOf(left) == WatchersOf(right)
    ensures Assign(WatchersOf(left)) == Assign(WatchersOf(right))
  {
    assert ChannelsOf(left) == ChannelsOf(right);
    forall channel ensures UsersOf(left, channel) == UsersOf(right, channel) {}
  }
}
