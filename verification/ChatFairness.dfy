/** Why scarce channels come first: a channel with a single watcher is not crowded out by channels others could take. */
module ChatFairness {
  import Sets
  import opened Text
  import opened Sorting
  import opened Registrations
  import opened ChatAssignment

  // ---------------------------------------------------------------- the order and the choice

  /** One channel is handled before another: it has fewer watchers, or as many and the smaller name. */
  predicate Earlier(watchers: Watchers, a: string, b: string)
    requires a in watchers && b in watchers
  {
    |watchers[a]| < |watchers[b]| || (|watchers[a]| == |watchers[b]| && a != b && Leq(a, b))
  }

  lemma RankedKey(watchers: Watchers, i: nat)
    requires i < |ChannelOrder(watchers)|
    ensures ChannelOrder(watchers)[i] in watchers
    ensures var keys := set channel | channel in watchers :: Key(|watchers[channel]|, channel);
      && Sorted(keys)[i] == Key(|watchers[ChannelOrder(watchers)[i]]|, ChannelOrder(watchers)[i])
  {
    var keys := set channel | channel in watchers :: Key(|watchers[channel]|, channel);
    assert Sorted(keys)[i] in Sorted(keys);
  }

  lemma FewestWatchersFirst(watchers: Watchers, i: nat, j: nat)
    requires i < j < |ChannelOrder(watchers)|
    ensures var order := ChannelOrder(watchers);
      order[i] in watchers && order[j] in watchers && Earlier(watchers, order[i], order[j])
  {
    RankedKey(watchers, i);
    RankedKey(watchers, j);
    hide Leq;
  }

  /** A watcher with the least load, the smallest name among those. */
  predicate IsBest(given: Assignment, users: set<string>, user: string) {
    user in users && forall other | other in users ::
      Load(given, user) < Load(given, other) || (Load(given, user) == Load(given, other) && Leq(user, other))
  }

  /** Each channel goes to the best watcher at its turn, unless even that one has a hundred. */
  lemma GivenToBest(order: seq<string>, watchers: Watchers, n: nat) returns (user: string)
    requires n < |order| && (forall channel | channel in order :: channel in watchers) && watchers[order[n]] != {}
    ensures var given, next := Greedy(order[..n], watchers), Greedy(order[..n + 1], watchers);
      && IsBest(given, watchers[order[n]], user)
      && (Load(given, user) >= 100 ==> next == given)
      && (Load(given, user) < 100 ==>
            next == given[user := (if user in given then given[user] else []) + [order[n]]])
  {
    var given, users := Greedy(order[..n], watchers), watchers[order[n]];
    assert order[..n + 1][..n] == order[..n];
    assert forall u | u in users :: Key(Load(given, u), u) in Candidates(given, users);
    var best := Least(Candidates(given, users));
    user := best.name;
    hide Leq;
  }

  // ---------------------------------------------------------------- channels with a single watcher

  /** The channels that only this user watches. */
  function Sole(watchers: Watchers, user: string): set<string> {
    set channel | channel in watchers && watchers[channel] == {user}
  }

  /** Those of them that are handled before a given one. */
  function SoleBefore(watchers: Watchers, user: string, channel: string): set<string> {
    set other | other in watchers && watchers[other] == {user} && other != channel && Leq(other, channel)
  }

  function SoleAmong(order: seq<string>, watchers: Watchers, user: string): set<string> {
    set channel | channel in order && channel in watchers && watchers[channel] == {user}
  }

  predicate Scarce(order: seq<string>, watchers: Watchers) {
    forall channel | channel in order :: channel in watchers && |watchers[channel]| <= 1
  }

  lemma OnlyOneWatcher(users: set<string>, user: string)
    requires |users| <= 1 && user in users
    ensures users == {user}
  {
    if other :| other in users && other != user {
      Sets.SubsetSize({user, other}, users);
    }
  }

  /** As long as no channel has two watchers, everybody holds the channels only they watch, up to a hundred. */
  lemma {:induction false} ScarceLoads(order: seq<string>, watchers: Watchers, n: nat, user: string)
    requires n <= |order| && Distinct(order) && Scarce(order, watchers)
    ensures var sole := |SoleAmong(order[..n], watchers, user)|;
      Load(Greedy(order[..n], watchers), user) == if sole < 100 then sole else 100
  {
    if n == 0 {
      assert SoleAmong(order[..0], watchers, user) == {};
    } else {
      var channel := order[n - 1];
      ScarceLoads(order, watchers, n - 1, user);
      assert order[..n] == order[..n - 1] + [channel] && order[n - 1] in order;
      if watchers[channel] == {} {
        assert order[..n][..n - 1] == order[..n - 1];
        assert SoleAmong(order[..n], watchers, user) == SoleAmong(order[..n - 1], watchers, user);
      } else {
        var best := GivenToBest(order, watchers, n - 1);
        OnlyOneWatcher(watchers[channel], best);
        SoleGrows(order, watchers, n, user);
      }
    }
  }

  lemma SoleGrows(order: seq<string>, watchers: Watchers, n: nat, user: string)
    requires 0 < n <= |order| && Distinct(order) && order[n - 1] in watchers
    ensures var before, after := SoleAmong(order[..n - 1], watchers, user), SoleAmong(order[..n], watchers, user);
      |after| == |before| + if watchers[order[n - 1]] == {user} then 1 else 0
  {
    var before, after := SoleAmong(order[..n - 1], watchers, user), SoleAmong(order[..n], watchers, user);
    assert order[..n] == order[..n - 1] + [order[n - 1]];
    assert order[n - 1] !in order[..n - 1];
    assert after == before + if watchers[order[n - 1]] == {user} then {order[n - 1]} else {};
  }

  // ---------------------------------------------------------------- the rest of the pass

  /** A channel that is not handled any more stays where it is. */
  lemma {:induction false} Stays(order: seq<string>, watchers: Watchers, n: nat, m: nat, user: string, channel: string)
    requires n <= m <= |order| && (forall c | c in order :: c in watchers) && channel !in order[n..]
    ensures var early, late := Greedy(order[..n], watchers), Greedy(order[..m], watchers);
      (user in late && channel in late[user]) <==> (user in early && channel in early[user])
    decreases m
  {
    if n < m {
      Stays(order, watchers, n, m - 1, user, channel);
      assert order[m - 1] in order && order[n..][m - 1 - n] == order[m - 1];
      if watchers[order[m - 1]] == {} {
        assert order[..m][..m - 1] == order[..m - 1];
      } else {
        var best := GivenToBest(order, watchers, m - 1);
      }
    }
  }

  lemma AssignHolds(watchers: Watchers, user: string, channel: string)
    ensures var order := ChannelOrder(watchers);
      (forall c | c in order :: c in watchers) &&
      var given := Greedy(order, watchers);
      (user in Assign(watchers) && channel in Assign(watchers)[user]) <==> (user in given && channel in given[user])
  {
    OrderOfWatchers(watchers);
    var given := Greedy(ChannelOrder(watchers), watchers);
    if user in given {
      SortNamesList(set name | name in given[user]);
    }
  }

  // ---------------------------------------------------------------- nobody else's channel comes first

  lemma ScarceBefore(watchers: Watchers, n: nat, channel: string, user: string)
    requires n < |ChannelOrder(watchers)| && ChannelOrder(watchers)[n] == channel
    requires channel in watchers && watchers[channel] == {user}
    ensures Scarce(ChannelOrder(watchers)[..n], watchers)
  {
    var order := ChannelOrder(watchers);
    hide ChannelOrder, Leq;
    forall c | c in order[..n] ensures c in watchers && |watchers[c]| <= 1 {
      var i :| 0 <= i < n && order[i] == c;
      FewestWatchersFirst(watchers, i, n);
    }
  }

  lemma SoleAreBefore(watchers: Watchers, n: nat, channel: string, user: string)
    requires n < |ChannelOrder(watchers)| && ChannelOrder(watchers)[n] == channel
    requires channel in watchers && watchers[channel] == {user}
    ensures SoleAmong(ChannelOrder(watchers)[..n], watchers, user) == SoleBefore(watchers, user, channel)
  {
    var order := ChannelOrder(watchers);
    OrderOfWatchers(watchers);
    hide ChannelOrder, Leq;
    forall c | c in SoleAmong(order[..n], watchers, user) ensures c in SoleBefore(watchers, user, channel) {
      var i :| 0 <= i < n && order[i] == c;
      FewestWatchersFirst(watchers, i, n);
    }
    forall c | c in SoleBefore(watchers, user, channel) ensures c in SoleAmong(order[..n], watchers, user) {
      assert c in order;
      var i :| 0 <= i < |order| && order[i] == c;
      if n < i {
        FewestWatchersFirst(watchers, n, i);
        LeqAntisymmetric(c, channel);
      }
      assert order[..n][i] == c;
    }
  }

  lemma AtItsTurn(order: seq<string>, watchers: Watchers, n: nat, channel: string, user: string)
    requires n < |order| && order[n] == channel && Distinct(order) && (forall c | c in order :: c in watchers)
    requires watchers[channel] == {user} && Scarce(order[..n], watchers)
    ensures var next := Greedy(order[..n + 1], watchers);
      user in next && channel in next[user] <==> |SoleAmong(order[..n], watchers, user)| < 100
  {
    var before := order[..n];
    assert Distinct(before) && before[..n] == before;
    ScarceLoads(before, watchers, n, user);
    GreedyKeeps(before, watchers);
    var best := GivenToBest(order, watchers, n);
    var given := Greedy(before, watchers);
    assert channel !in before;
    assert !Covered(given, channel);
  }

  lemma InTheEnd(order: seq<string>, watchers: Watchers, n: nat, channel: string, user: string)
    requires n < |order| && order[n] == channel && Distinct(order) && (forall c | c in order :: c in watchers)
    requires watchers[channel] == {user} && Scarce(order[..n], watchers)
    ensures var given := Greedy(order, watchers);
      user in given && channel in given[user] <==> |SoleAmong(order[..n], watchers, user)| < 100
  {
    hide Greedy, SoleAmong, Scarce;
    AtItsTurn(order, watchers, n, channel, user);
    assert channel !in order[n + 1..];
    Stays(order, watchers, n + 1, |order|, user, channel);
    assert order[..|order|] == order;
  }

  lemma TurnOf(watchers: Watchers, channel: string) returns (n: nat)
    requires channel in watchers
    ensures n < |ChannelOrder(watchers)| && ChannelOrder(watchers)[n] == channel && Distinct(ChannelOrder(watchers))
  {
    var order := ChannelOrder(watchers);
    OrderOfWatchers(watchers);
    hide ChannelOrder;
    assert channel in order;
    n :| 0 <= n < |order| && order[n] == channel;
  }

  /** A channel with a single watcher is given to that watcher exactly if fewer than a hundred of the channels that only
      this user watches have a smaller name. No channel with other watchers can take its place. */
  lemma SoleWatcherServedIff(watchers: Watchers, channel: string, user: string)
    requires channel in watchers && watchers[channel] == {user}
    ensures user in Assign(watchers) && channel in Assign(watchers)[user] <==>
      |SoleBefore(watchers, user, channel)| < 100
  {
    hide ChannelOrder, Assign, SoleBefore, SoleAmong, Greedy, Scarce, Distinct;
    var n := TurnOf(watchers, channel);
    ScarceBefore(watchers, n, channel, user);
    SoleAreBefore(watchers, n, channel, user);
    AssignHolds(watchers, user, channel);
    InTheEnd(ChannelOrder(watchers), watchers, n, channel, user);
  }

  /** So it is given to its watcher if that user is the only watcher of at most a hundred channels. */
  lemma SoleWatcherServed(watchers: Watchers, channel: string, user: string)
    requires channel in watchers && watchers[channel] == {user} && |Sole(watchers, user)| <= 100
    ensures user in Assign(watchers) && channel in Assign(watchers)[user]
  {
    SoleWatcherServedIff(watchers, channel, user);
    Sets.SubsetSize(SoleBefore(watchers, user, channel), Sole(watchers, user) - {channel});
  }

  // ---------------------------------------------------------------- who watches

  const CHAT_RULES := ["mention", "reply", "highlight", "selected_user"]

  ghost predicate WatchesFor(registrations: seq<Registration>, user: string, channel: string) {
    exists r, raw, rule :: r in registrations && raw in r.channelIDs && rule in CHAT_RULES
      && TrimSpace(r.userID) == user && TrimSpace(raw) == channel && RuleConfiguredForChannel(r, rule, channel)
  }

  lemma AnyChatRule(r: Registration, channel: string)
    ensures AnyRuleForChannel(r, channel, CHAT_RULES) <==>
      exists rule | rule in CHAT_RULES :: RuleConfiguredForChannel(r, rule, channel)
  {
    hide RuleConfiguredForChannel;
    if AnyRuleForChannel(r, channel, CHAT_RULES) {
      var i :| 0 <= i < |CHAT_RULES| && RuleConfiguredForChannel(r, CHAT_RULES[i], channel);
      assert CHAT_RULES[i] in CHAT_RULES;
    }
    if rule :| rule in CHAT_RULES && RuleConfiguredForChannel(r, rule, channel) {
      var i :| 0 <= i < |CHAT_RULES| && CHAT_RULES[i] == rule;
    }
  }

  /** A user watches a channel exactly if one of their devices names it and has one of the four chat rules for it;
      blank identifiers count for nobody and nothing. */
  lemma WatcherIff(registrations: seq<Registration>, user: string, channel: string)
    ensures channel in WatchersOf(registrations) && user in WatchersOf(registrations)[channel] <==>
      user != "" && channel != "" && WatchesFor(registrations, user, channel)
  {
    forall r ensures AnyRuleForChannel(r, channel, CHAT_RULES) <==>
        exists rule | rule in CHAT_RULES :: RuleConfiguredForChannel(r, rule, channel) {
      AnyChatRule(r, channel);
    }
    hide RuleConfiguredForChannel, AnyRuleForChannel, TrimSpace;
    if user != "" && channel != "" && WatchesFor(registrations, user, channel) {
      var r, raw, rule :| r in registrations && raw in r.channelIDs && rule in CHAT_RULES
        && TrimSpace(r.userID) == user && TrimSpace(raw) == channel && RuleConfiguredForChannel(r, rule, channel);
      assert Watches(r, channel);
    }
  }
}
