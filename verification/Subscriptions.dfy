/** The EventSub subscriptions the registrations call for, and bringing Twitch's list in line with them. */
module Subscriptions {
  import opened Text
  import opened Sorting
  import opened Registrations
  import opened SpecKey

  // ---------------------------------------------------------------- desired subscriptions

  function Broadcaster(id: string): map<string, string> {
    map["broadcaster_user_id" := id]
  }

  function Moderator(id: string, user: string): map<string, string> {
    map["broadcaster_user_id" := id, "moderator_user_id" := user]
  }

  /** `appendSpec`: condition values are trimmed, and a blank one drops the subscription. */
  function Appended(spec: Spec): set<Spec> {
    if exists key | key in spec.condition :: TrimSpace(spec.condition[key]) == "" then {}
    else {spec.(condition := map key | key in spec.condition :: TrimSpace(spec.condition[key]))}
  }

  /** A subscription that is asked for under a condition. */
  datatype Row = Row(enabled: bool, spec: Spec)

  function Rows(r: Registration, id: string): seq<Row> {
    var isModerator := id in r.moderatorChannelIDs;
    var isBroadcaster := r.userID != "" && r.userID == id;
    var subscriber := isBroadcaster && RuleConfiguredForChannel(r, "subscription", id);
    [ Row(r.userID != "" && isModerator
          && RuleConfiguredForChannel(r, "automod_hold", id), Spec("automod.message.hold", "2",
                                                                   Moderator(id, r.userID))),
      Row(r.userID != "" && isModerator
          && RuleConfiguredForChannel(r, "moderation_action", id), Spec("channel.moderate", "2",
                                                                        Moderator(id, r.userID))),
      Row(isModerator && AnyRuleForChannel(r, id, ["ban", "timeout"]), Spec("channel.ban", "1", Broadcaster(id))),
      Row(RuleConfiguredForChannel(r, "stream_online", id), Spec("stream.online", "1", Broadcaster(id))),
      Row(AnyRuleForChannel(r, id, ["title_change", "game_change"]), Spec("channel.update", "2", Broadcaster(id))),
      Row(RuleConfiguredForChannel(r, "raid", id), Spec("channel.raid", "1", map["to_broadcaster_user_id" := id])),
      Row(isBroadcaster && RuleConfiguredForChannel(r, "reward", id),
          Spec("channel.channel_points_custom_reward_redemption.add", "1", Broadcaster(id))),
      Row(subscriber, Spec("channel.subscribe", "1", Broadcaster(id))),
      Row(subscriber, Spec("channel.subscription.message", "1", Broadcaster(id))),
      Row(subscriber, Spec("channel.subscription.gift", "1", Broadcaster(id))) ]
  }

  function SpecsFor(r: Registration, rawID: string): set<Spec> {
    var id := TrimSpace(rawID);
    if id == "" then {}
    else
      var rows := Rows(r, id);
      set row, spec | row in rows && row.enabled && spec in Appended(row.spec) :: spec
  }

  /** Everything some registration asks for on some channel. */
  ghost predicate Wanted(registrations: seq<Registration>, spec: Spec) {
    exists r, id :: r in registrations && id in r.channelIDs && spec in SpecsFor(r, id)
  }

  /** A table of subscriptions under their own keys. */
  predicate Keyed(unique: map<string, Spec>) {
    forall key | key in unique :: KeyOf(unique[key]) == key
  }

  /** Last writer wins among subscriptions that share a key. */
  method AppendAll(had: map<string, Spec>, specs: set<Spec>) returns (unique: map<string, Spec>)
    requires Keyed(had)
    ensures Keyed(unique)
    ensures forall spec | spec in specs :: KeyOf(spec) in unique
    ensures forall key | key in had :: key in unique
    ensures forall key | key in unique :: unique[key] in specs || (key in had && unique[key] == had[key])
  {
    hide KeyOf;
    unique := had;
    var todo := specs;
    while todo != {}
      invariant todo <= specs && Keyed(unique)
      invariant forall spec | spec in specs && spec !in todo :: KeyOf(spec) in unique
      invariant forall key | key in had :: key in unique
      invariant forall key | key in unique :: unique[key] in specs || (key in had && unique[key] == had[key])
    {
      var spec :| spec in todo;
      todo := todo - {spec};
      unique := unique[KeyOf(spec) := spec];
    }
  }

  method AppendRegistration(had: map<string, Spec>, r: Registration) returns (unique: map<string, Spec>)
    requires Keyed(had)
    ensures Keyed(unique)
    ensures forall id, spec | id in r.channelIDs && spec in SpecsFor(r, id) :: KeyOf(spec) in unique
    ensures forall key | key in had :: key in unique
    ensures forall key | key in unique ::
      (exists id | id in r.channelIDs :: unique[key] in SpecsFor(r, id)) || (key in had && unique[key] == had[key])
  {
    hide SpecsFor, KeyOf;
    unique := had;
    for i := 0 to |r.channelIDs|
      invariant Keyed(unique)
      invariant forall j, spec | 0 <= j < i && spec in SpecsFor(r, r.channelIDs[j]) :: KeyOf(spec) in unique
      invariant forall key | key in had :: key in unique
      invariant forall key | key in unique ::
        (exists id | id in r.channelIDs :: unique[key] in SpecsFor(r, id)) || (key in had && unique[key] == had[key])
    {
      unique := AppendAll(unique, SpecsFor(r, r.channelIDs[i]));
    }
  }

  /** The subscriptions to hold, in key order: each wanted key once, and nothing that is not wanted. */
  method DesiredSubscriptions(registrations: seq<Registration>) returns (result: seq<Spec>)
    ensures Desired(registrations, result)
  {
    hide SpecsFor, KeyOf;
    var unique: map<string, Spec> := map[];
    for n := 0 to |registrations|
      invariant Keyed(unique)
      invariant forall m, id, spec | 0 <= m < n && id in registrations[m].channelIDs
                                     && spec in SpecsFor(registrations[m], id) :: KeyOf(spec) in unique
      invariant forall key | key in unique :: Wanted(registrations, unique[key])
    {
      ghost var r := registrations[n];
      assert r in registrations;
      unique := AppendRegistration(unique, registrations[n]);
    }
    result := InKeyOrder(unique);
    forall spec | Wanted(registrations, spec) ensures exists other | other in result :: KeyOf(other) == KeyOf(spec) {
      var r, id :| r in registrations && id in r.channelIDs && spec in SpecsFor(r, id);
      var m :| 0 <= m < |registrations| && registrations[m] == r;
      assert KeyOf(spec) in unique;
      assert unique[KeyOf(spec)] in result;
    }
  }

  method InKeyOrder(unique: map<string, Spec>) returns (result: seq<Spec>)
    requires Keyed(unique)
    ensures KeyAscending(result)
    ensures forall spec | spec in result :: exists key | key in unique :: unique[key] == spec
    ensures forall key | key in unique :: unique[key] in result
  {
    var keys := SortNames(unique.Keys);
    SortNamesList(unique.Keys);
    SortNamesAscending(unique.Keys);
    hide *;
    result := [];
    for i := 0 to |keys|
      invariant |result| == i
      invariant forall j | 0 <= j < i :: keys[j] in unique && result[j] == unique[keys[j]]
    {
      assert keys[i] in keys;
      result := result + [unique[keys[i]]];
    }
    ReadsInOrder(unique, keys, result);
  }

  lemma ReadsInOrder(unique: map<string, Spec>, keys: seq<string>, result: seq<Spec>)
    requires Keyed(unique) && Distinct(keys) && forall key :: key in keys <==> key in unique
    requires forall i, j | 0 <= i < j < |keys| :: Leq(keys[i], keys[j])
    requires |result| == |keys| && forall i | 0 <= i < |keys| :: keys[i] in unique && result[i] == unique[keys[i]]
    ensures KeyAscending(result)
    ensures forall spec | spec in result :: exists key | key in unique :: unique[key] == spec
    ensures forall key | key in unique :: unique[key] in result
  {
  }

  predicate KeyAscending(result: seq<Spec>) {
    forall i, j | 0 <= i < j < |result| ::
      Leq(KeyOf(result[i]), KeyOf(result[j])) && KeyOf(result[i]) != KeyOf(result[j])
  }

  // ---------------------------------------------------------------- nothing is lost, order does not matter

  /** The user's identifier holds no '|'. Channel identifiers may hold anything. */
  predicate PlainUser(r: Registration) {
    '|' !in r.userID
  }

  lemma {:induction false} TrimLeftKeepsOut(s: string, c: char)
    requires c !in s
    ensures c !in TrimLeft(s)
  {
    if s != "" && IsSpace(s[0]) {
      TrimLeftKeepsOut(s[1..], c);
    }
  }

  lemma {:induction false} TrimRightKeepsOut(s: string, c: char)
    requires c !in s
    ensures c !in TrimRight(s)
  {
    if s != "" && IsSpace(s[|s| - 1]) {
      TrimRightKeepsOut(s[..|s| - 1], c);
    }
  }

  lemma TrimKeepsOut(s: string, c: char)
    requires c !in s
    ensures c !in TrimSpace(s)
  {
    TrimLeftKeepsOut(s, c);
    TrimRightKeepsOut(TrimLeft(s), c);
  }

  predicate PlainText(text: string) {
    '|' !in text
  }

  /** The types that are asked for a moderator, and the one that names its channel differently. */
  predicate ForModerators(eventType: string) {
    eventType == "automod.message.hold" || eventType == "channel.moderate"
  }

  /** The type decides which entries the condition has. */
  predicate Outlined(spec: Spec) {
    && PlainText(spec.eventType) && PlainText(spec.version)
    && if ForModerators(spec.eventType) then spec.condition.Keys == {"broadcaster_user_id", "moderator_user_id"}
       else if spec.eventType == "channel.raid" then spec.condition.Keys == {"to_broadcaster_user_id"}
       else spec.condition.Keys == {"broadcaster_user_id"}
  }

  lemma ShortTypesArePlain()
    ensures PlainText("automod.message.hold") && PlainText("channel.moderate") && PlainText("channel.ban")
    ensures PlainText("stream.online") && PlainText("channel.update") && PlainText("channel.raid")
    ensures PlainText("channel.subscribe") && PlainText("1") && PlainText("2")
  {
  }

  lemma SubscriptionTypesArePlain()
    ensures PlainText("channel.subscription.message") && PlainText("channel.subscription.gift")
  {
  }

  lemma LongTypesArePlain()
    ensures PlainText("channel.channel_points_custom_reward_redemption.add")
    ensures PlainText("channel.subscription.message") && PlainText("channel.subscription.gift")
  {
    SubscriptionTypesArePlain();
    assert '|' !in "channel.channel_points_custom" && '|' !in "_reward_redemption.add";
    assert "channel.channel_points_custom_reward_redemption.add"
      == "channel.channel_points_custom" + "_reward_redemption.add";
  }

  lemma ModeratorNames()
    ensures PlainText("moderator_user_id") && Leq("broadcaster_user_id", "moderator_user_id")
    ensures "broadcaster_user_id" != "moderator_user_id"
  {
    assert "broadcaster_user_id"[0] == 'b' && "moderator_user_id"[0] == 'm';
  }

  lemma RowIsOutlined(r: Registration, id: string, row: Row)
    requires row in Rows(r, id)
    ensures Outlined(row.spec)
  {
    hide RuleConfiguredForChannel, AnyRuleForChannel, PlainText;
    ShortTypesArePlain();
    LongTypesArePlain();
  }

  lemma AppendedIsOutlined(spec: Spec, appended: Spec)
    requires Outlined(spec) && appended in Appended(spec)
    ensures Outlined(appended)
  {
    hide TrimSpace, ForModerators, PlainText;
    assert appended.condition.Keys == spec.condition.Keys && appended.eventType == spec.eventType
           && appended.version == spec.version;
  }

  /** A wanted subscription has the entries of its type, whatever the identifiers are. */
  lemma WantedIsOutlined(registrations: seq<Registration>, spec: Spec)
    requires Wanted(registrations, spec)
    ensures Outlined(spec)
  {
    hide Rows, Appended, TrimSpace, Outlined;
    var r, rawID :| r in registrations && rawID in r.channelIDs && spec in SpecsFor(r, rawID);
    var id := TrimSpace(rawID);
    var row :| row in Rows(r, id) && row.enabled && spec in Appended(row.spec);
    RowIsOutlined(r, id, row);
    AppendedIsOutlined(row.spec, spec);
  }

  /** The key of any subscription starts with its type and a bar. */
  lemma KeyStarts(spec: Spec) returns (rest: string)
    ensures KeyOf(spec) == spec.eventType + ['|'] + rest
  {
    rest := Join(Segments(spec)[1..], '|');
    hide ConditionKeys, Pairs;
    assert Segments(spec)[0] == spec.eventType && |Segments(spec)| >= 2;
  }

  lemma SameKeySameType(a: Spec, b: Spec)
    requires PlainText(a.eventType) && PlainText(b.eventType) && KeyOf(a) == KeyOf(b)
    ensures a.eventType == b.eventType
  {
    hide KeyOf;
    var x := KeyStarts(a);
    var y := KeyStarts(b);
    SplitUnique(a.eventType, x, b.eventType, y, '|');
  }

  /** A list of subscriptions as `DesiredSubscriptions` promises it. */
  ghost predicate Desired(registrations: seq<Registration>, result: seq<Spec>) {
    && KeyAscending(result)
    && (forall spec | spec in result :: Wanted(registrations, spec))
    && (forall spec | Wanted(registrations, spec) :: exists other | other in result :: KeyOf(other) == KeyOf(spec))
  }

  // ---------------------------------------------------------------- subscriptions that share a key

  /** What comes between the channel and the moderator in a key. */
  const NEXT := "|moderator_user_id="

  const CHANNEL := "broadcaster_user_id"
  const USER := "moderator_user_id"

  lemma Regroup(b: string, x: string, y: string, z: string)
    ensures (b + (x + NEXT + y)) + (NEXT + z) == (b + x) + (NEXT + (y + NEXT + z))
  {
  }

  lemma NextIsPair(z: string)
    ensures ['|'] + Pair(USER, z) == NEXT + z
  {
    assert ['|'] + USER + "=" == NEXT;
  }

  lemma PairStarts(k: string, x: string)
    ensures Pair(k, x) == (k + "=") + x
  {
  }

  lemma SameEnding(a: string, b: string, c: string)
    requires ['|'] + b == c
    ensures a + ['|'] + b == a + c
  {
  }

  /** Type, version, channel and moderator follow each other in a key. */
  lemma ModerationKey(spec: Spec)
    requires spec.condition.Keys == {CHANNEL, USER}
    ensures KeyOf(spec) == spec.eventType + ['|'] + (spec.version + ['|']
                           + ((CHANNEL + "=") + (spec.condition[CHANNEL] + NEXT + spec.condition[USER])))
  {
    var p, u := spec.condition[CHANNEL], spec.condition[USER];
    ModeratorNames();
    hide KeyOf, Leq, Pair;
    TwoEntriesKey(spec, CHANNEL, USER);
    PairStarts(CHANNEL, p);
    NextIsPair(u);
    SameEnding(Pair(CHANNEL, p), Pair(USER, u), NEXT + u);
    Associate(CHANNEL + "=", p, NEXT, u);
  }

  lemma Associate(b: string, p: string, next: string, u: string)
    ensures (b + p) + (next + u) == b + (p + next + u)
  {
  }

  /** The key cannot tell where the channel of one ends from where the channel of the other ends. */
  ghost predicate Swapped(a: Spec, b: Spec) {
    && a.eventType == b.eventType && a.version == b.version
    && a.condition.Keys == {CHANNEL, USER} && b.condition.Keys == {CHANNEL, USER}
    && exists y :: Runs(a.condition[CHANNEL], a.condition[USER], b.condition[CHANNEL], b.condition[USER], y)
  }

  predicate Runs(p: string, u: string, q: string, v: string, y: string) {
    p == q + NEXT + y && v == y + NEXT + u
  }

  lemma BarStartsNext(i: nat)
    requires i < |NEXT| && NEXT[i] == '|'
    ensures i == 0
  {
  }

  /** A bar stands only at the start of what is between, so two readings of a text overlap by all of it or not at
      all. */
  lemma LongerChannel(p: string, u: string, q: string, v: string) returns (y: string)
    requires p + NEXT + u == q + NEXT + v && |p| > |q|
    ensures Runs(p, u, q, v, y)
  {
    var whole, n := p + NEXT + u, |NEXT|;
    assert whole[..|q|] == q && whole[|q|..|q| + n] == NEXT && whole[|q| + n..] == v by { Cut(q, NEXT, v); }
    assert whole[..|p|] == p && whole[|p|..|p| + n] == NEXT && whole[|p| + n..] == u by { Cut(p, NEXT, u); }
    hide NEXT;
    assert NEXT[0] == whole[|p|] == '|' by { FirstOfNext(); }
    if |p| < |q| + n {
      assert NEXT[|p| - |q|] == whole[|p|];
      BarStartsNext(|p| - |q|);
    }
    y := p[|q| + n..];
    assert p == whole[..|q|] + whole[|q|..|q| + n] + whole[|q| + n..|p|];
    assert v == whole[|q| + n..|p|] + whole[|p|..|p| + n] + whole[|p| + n..];
    assert y == whole[|q| + n..|p|];
  }

  lemma FirstOfNext()
    ensures |NEXT| > 0 && NEXT[0] == '|'
  {
  }

  lemma Cut(a: string, b: string, c: string)
    ensures (a + b + c)[..|a|] == a && (a + b + c)[|a|..|a| + |b|] == b && (a + b + c)[|a| + |b|..] == c
  {
  }

  lemma SameLength(p: string, u: string, q: string, v: string)
    requires p + NEXT + u == q + NEXT + v && |p| == |q|
    ensures p == q && u == v
  {
    hide NEXT;
    Cut(p, NEXT, u);
    Cut(q, NEXT, v);
  }

  lemma SameEntriesSame(a: Spec, b: Spec)
    requires a.eventType == b.eventType && a.version == b.version
    requires a.condition.Keys == {CHANNEL, USER} && b.condition.Keys == {CHANNEL, USER}
    requires a.condition[CHANNEL] == b.condition[CHANNEL] && a.condition[USER] == b.condition[USER]
    ensures a == b
  {
    assert a.condition == b.condition;
  }

  lemma SwappedShare(a: Spec, b: Spec)
    requires Swapped(a, b)
    ensures KeyOf(a) == KeyOf(b) && a != b
  {
    hide KeyOf, NEXT, CHANNEL, USER;
    ModerationKey(a);
    ModerationKey(b);
    var p, u, q, v := a.condition[CHANNEL], a.condition[USER], b.condition[CHANNEL], b.condition[USER];
    var y :| Runs(p, u, q, v, y);
    Regroup("", q, y, u);
    Unfold(p, u, q, v, y);
    FirstOfNext();
    assert |p| > |q|;
  }

  lemma Unfold(p: string, u: string, q: string, v: string, y: string)
    requires Runs(p, u, q, v, y)
    ensures p + NEXT + u == q + NEXT + v
  {
    hide NEXT;
    assert (q + NEXT + y) + NEXT + u == q + NEXT + (y + NEXT + u);
  }

  lemma SharingModerations(a: Spec, b: Spec)
    requires PlainText(a.eventType) && PlainText(a.version) && PlainText(b.eventType) && PlainText(b.version)
    requires a.condition.Keys == {CHANNEL, USER} && b.condition.Keys == {CHANNEL, USER} && KeyOf(a) == KeyOf(b)
    ensures a == b || Swapped(a, b) || Swapped(b, a)
  {
    hide KeyOf, NEXT, CHANNEL, USER;
    ModerationKey(a);
    ModerationKey(b);
    var p, u, q, v := a.condition[CHANNEL], a.condition[USER], b.condition[CHANNEL], b.condition[USER];
    var start := CHANNEL + "=";
    HeadGives(a, b, start + (p + NEXT + u), start + (q + NEXT + v));
    SameStart(start, p + NEXT + u, q + NEXT + v);
    if |p| > |q| {
      var y := LongerChannel(p, u, q, v);
    } else if |q| > |p| {
      var y := LongerChannel(q, v, p, u);
    } else {
      SameLength(p, u, q, v);
      SameEntriesSame(a, b);
    }
  }

  lemma SameStart(start: string, x: string, y: string)
    requires start + x == start + y
    ensures x == y
  {
    assert (start + x)[|start|..] == x && (start + y)[|start|..] == y;
  }

  /** Subscriptions with the entries of their types share a key exactly if they are the same or read the same text. */
  lemma SameKeyIff(a: Spec, b: Spec)
    requires Outlined(a) && Outlined(b)
    ensures KeyOf(a) == KeyOf(b) <==> a == b || Swapped(a, b) || Swapped(b, a)
  {
    if KeyOf(a) == KeyOf(b) {
      SameKeySameType(a, b);
      hide KeyOf, ForModerators, Swapped;
      if ForModerators(a.eventType) {
        SharingModerations(a, b);
      } else if a.eventType == "channel.raid" {
        OneEntryInjective(a, b, "to_broadcaster_user_id");
      } else {
        OneEntryInjective(a, b, CHANNEL);
      }
    } else if Swapped(a, b) {
      SwappedShare(a, b);
    } else if Swapped(b, a) {
      SwappedShare(b, a);
    }
  }

  // ---------------------------------------------------------------- which identifiers are confused

  /** The rule that asks for a moderator's type. */
  function RuleOf(eventType: string): string {
    if eventType == "automod.message.hold" then "automod_hold" else "moderation_action"
  }

  /** A registration asks for a moderator's type on a channel. */
  predicate Asks(r: Registration, rawID: string, eventType: string, channel: string, user: string) {
    && channel == TrimSpace(rawID) != "" && user == TrimSpace(r.userID) != ""
    && channel in r.moderatorChannelIDs && RuleConfiguredForChannel(r, RuleOf(eventType), channel)
  }

  ghost predicate Moderates(registrations: seq<Registration>, eventType: string, channel: string, user: string) {
    exists r, id :: r in registrations && id in r.channelIDs && Asks(r, id, eventType, channel, user)
  }

  lemma ModerationRow(r: Registration, id: string, row: Row)
    requires row in Rows(r, id) && ForModerators(row.spec.eventType)
    ensures row.spec == Spec(row.spec.eventType, "2", Moderator(id, r.userID))
    ensures row.enabled ==> r.userID != "" && id in r.moderatorChannelIDs
    ensures row.enabled ==> RuleConfiguredForChannel(r, RuleOf(row.spec.eventType), id)
  {
    hide RuleConfiguredForChannel, AnyRuleForChannel, Moderator, Broadcaster;
  }

  lemma RowOfModeration(r: Registration, id: string, eventType: string) returns (row: Row)
    requires ForModerators(eventType)
    ensures row in Rows(r, id) && row.spec == Spec(eventType, "2", Moderator(id, r.userID))
    ensures row.enabled ==
      (r.userID != "" && id in r.moderatorChannelIDs && RuleConfiguredForChannel(r, RuleOf(eventType), id))
  {
    hide RuleConfiguredForChannel, AnyRuleForChannel, Moderator, Broadcaster;
    row := if eventType == "automod.message.hold" then Rows(r, id)[0] else Rows(r, id)[1];
  }

  lemma ModeratorEntries(id: string, user: string)
    ensures Moderator(id, user).Keys == {CHANNEL, USER}
    ensures Moderator(id, user)[CHANNEL] == id && Moderator(id, user)[USER] == user
  {
    ModeratorNames();
    hide Leq;
  }

  /** What is appended of a moderation: both identifiers trimmed, and nothing if one is blank. */
  lemma AppendedModeration(eventType: string, id: string, user: string)
    ensures Appended(Spec(eventType, "2", Moderator(id, user)))
      == if TrimSpace(id) == "" || TrimSpace(user) == "" then {}
         else {Spec(eventType, "2", Moderator(TrimSpace(id), TrimSpace(user)))}
  {
    ModeratorEntries(id, user);
    ModeratorEntries(TrimSpace(id), TrimSpace(user));
    hide TrimSpace, Moderator, CHANNEL, USER;
    var condition := Moderator(id, user);
    assert (map key | key in condition :: TrimSpace(condition[key])) == Moderator(TrimSpace(id), TrimSpace(user));
    assert CHANNEL in condition && USER in condition;
  }

  lemma AskedIsAppended(r: Registration, rawID: string, spec: Spec)
    requires ForModerators(spec.eventType) && spec in SpecsFor(r, rawID)
    ensures spec == Spec(spec.eventType, "2", Moderator(TrimSpace(rawID), TrimSpace(r.userID)))
    ensures Asks(r, rawID, spec.eventType, TrimSpace(rawID), TrimSpace(r.userID))
  {
    hide Rows, RuleConfiguredForChannel, Moderator, TrimSpace;
    var id := TrimSpace(rawID);
    var row :| row in Rows(r, id) && row.enabled && spec in Appended(row.spec);
    assert row.spec.eventType == spec.eventType;
    ModerationRow(r, id, row);
    AppendedModeration(spec.eventType, id, r.userID);
    TrimTwice(rawID);
  }

  lemma AppendedIsAsked(r: Registration, rawID: string, eventType: string, channel: string, user: string)
    requires ForModerators(eventType) && Asks(r, rawID, eventType, channel, user)
    ensures Spec(eventType, "2", Moderator(channel, user)) in SpecsFor(r, rawID)
  {
    assert TrimSpace("") == "";
    hide Rows, RuleConfiguredForChannel, Moderator, TrimSpace, Appended;
    var row := RowOfModeration(r, channel, eventType);
    AppendedModeration(eventType, channel, r.userID);
    TrimTwice(rawID);
  }

  /** The subscriptions of a moderator's type that are wanted, by the identifiers of the registrations. */
  lemma ModerationWantedIff(registrations: seq<Registration>, spec: Spec)
    requires ForModerators(spec.eventType) && spec.condition.Keys == {CHANNEL, USER}
    ensures Wanted(registrations, spec) <==>
      spec.version == "2" && Moderates(registrations, spec.eventType, spec.condition[CHANNEL], spec.condition[USER])
  {
    var t, p, u := spec.eventType, spec.condition[CHANNEL], spec.condition[USER];
    hide SpecsFor, Asks, TrimSpace, Moderator, CHANNEL, USER, ForModerators;
    ModeratorEntries(p, u);
    if Wanted(registrations, spec) {
      var r, id :| r in registrations && id in r.channelIDs && spec in SpecsFor(r, id);
      AskedIsAppended(r, id, spec);
      ModeratorEntries(TrimSpace(id), TrimSpace(r.userID));
    }
    if spec.version == "2" && Moderates(registrations, t, p, u) {
      var r, id :| r in registrations && id in r.channelIDs && Asks(r, id, t, p, u);
      AppendedIsAsked(r, id, t, p, u);
      SameEntriesSame(spec, Spec(t, "2", Moderator(p, u)));
    }
  }

  /** One registration's channel goes on where another one's moderator begins: the channel `q` and the moderator
      `y|moderator_user_id=u` write what the channel `q|moderator_user_id=y` and the moderator `u` write. */
  ghost predicate Confused(registrations: seq<Registration>, eventType: string, q: string, y: string, u: string) {
    && ForModerators(eventType)
    && Moderates(registrations, eventType, q + NEXT + y, u) && Moderates(registrations, eventType, q, y + NEXT + u)
  }

  ghost predicate NoneConfused(registrations: seq<Registration>) {
    forall eventType, q, y, u :: !Confused(registrations, eventType, q, y, u)
  }

  lemma SwappedIsConfused(registrations: seq<Registration>, a: Spec, b: Spec)
    requires Wanted(registrations, a) && Wanted(registrations, b) && Swapped(a, b) && ForModerators(a.eventType)
    ensures !NoneConfused(registrations)
  {
    hide Wanted, Moderates, ForModerators, CHANNEL, USER, NEXT;
    ModerationWantedIff(registrations, a);
    ModerationWantedIff(registrations, b);
    var y :| Runs(a.condition[CHANNEL], a.condition[USER], b.condition[CHANNEL], b.condition[USER], y);
    assert Confused(registrations, a.eventType, b.condition[CHANNEL], y, a.condition[USER]);
  }

  lemma ConfusedIsSwapped(registrations: seq<Registration>, eventType: string, q: string, y: string, u: string)
    returns (a: Spec, b: Spec)
    requires Confused(registrations, eventType, q, y, u)
    ensures Wanted(registrations, a) && Wanted(registrations, b) && Swapped(a, b)
  {
    hide Wanted, Moderates, ForModerators, CHANNEL, USER, NEXT, Moderator;
    a, b := Spec(eventType, "2", Moderator(q + NEXT + y, u)), Spec(eventType, "2", Moderator(q, y + NEXT + u));
    ModeratorEntries(q + NEXT + y, u);
    ModeratorEntries(q, y + NEXT + u);
    ModerationWantedIff(registrations, a);
    ModerationWantedIff(registrations, b);
    assert Runs(a.condition[CHANNEL], a.condition[USER], b.condition[CHANNEL], b.condition[USER], y);
  }

  /** No two different subscriptions that are wanted share a key. */
  ghost predicate KeysApart(registrations: seq<Registration>) {
    forall a, b | Wanted(registrations, a) && Wanted(registrations, b) && KeyOf(a) == KeyOf(b) :: a == b
  }

  lemma TwoEntriesForModerators(spec: Spec)
    requires Outlined(spec) && spec.condition.Keys == {CHANNEL, USER}
    ensures ForModerators(spec.eventType)
  {
    ModeratorNames();
    hide Leq, PlainText, ForModerators;
    assert USER in spec.condition && CHANNEL in spec.condition && |"to_broadcaster_user_id"| != |CHANNEL|;
  }

  lemma KeysApartIff(registrations: seq<Registration>)
    ensures KeysApart(registrations) <==> NoneConfused(registrations)
  {
    hide Wanted, KeyOf, Outlined, Confused, Swapped;
    if NoneConfused(registrations) {
      forall a, b | Wanted(registrations, a) && Wanted(registrations, b) && KeyOf(a) == KeyOf(b) ensures a == b {
        WantedIsOutlined(registrations, a);
        WantedIsOutlined(registrations, b);
        SameKeyIff(a, b);
        NotSwapped(registrations, a, b);
        NotSwapped(registrations, b, a);
      }
    } else {
      var t, q, y, u :| Confused(registrations, t, q, y, u);
      var a, b := ConfusedIsSwapped(registrations, t, q, y, u);
      SwappedShare(a, b);
    }
  }

  lemma NotSwapped(registrations: seq<Registration>, a: Spec, b: Spec)
    requires NoneConfused(registrations) && Wanted(registrations, a) && Wanted(registrations, b) && Outlined(a)
    ensures !Swapped(a, b)
  {
    hide Wanted, Outlined, Confused, NoneConfused;
    if Swapped(a, b) {
      TwoEntriesForModerators(a);
      SwappedIsConfused(registrations, a, b);
    }
  }

  // ---------------------------------------------------------------- what is lost, and what order does

  lemma InResultOnce(result: seq<Spec>, a: Spec, b: Spec)
    requires KeyAscending(result) && a in result && b in result && KeyOf(a) == KeyOf(b)
    ensures a == b
  {
    hide KeyOf, Leq;
    var i :| 0 <= i < |result| && result[i] == a;
    var j :| 0 <= j < |result| && result[j] == b;
  }

  lemma ApartLosesNothing(registrations: seq<Registration>, result: seq<Spec>)
    requires Desired(registrations, result)
    ensures KeysApart(registrations) <==> forall spec | Wanted(registrations, spec) :: spec in result
  {
    hide KeyOf, Wanted, KeyAscending;
    if forall spec | Wanted(registrations, spec) :: spec in result {
      forall a, b | Wanted(registrations, a) && Wanted(registrations, b) && KeyOf(a) == KeyOf(b) ensures a == b {
        InResultOnce(result, a, b);
      }
    }
  }

  /** Deduplicating by key loses nothing exactly if no two registrations are confused. */
  lemma LosesNothingIff(registrations: seq<Registration>, result: seq<Spec>)
    requires Desired(registrations, result)
    ensures (forall spec | Wanted(registrations, spec) :: spec in result) <==> NoneConfused(registrations)
  {
    hide Desired, Wanted, KeysApart, NoneConfused;
    ApartLosesNothing(registrations, result);
    KeysApartIff(registrations);
  }

  lemma LastHoldsBar(y: string, u: string)
    ensures '|' in y + NEXT + u
  {
    FirstOfNext();
    hide NEXT;
    assert (y + NEXT + u)[|y|] == '|';
  }

  /** Without '|' in a user identifier nothing is confused, whatever the channel identifiers are. */
  lemma PlainUsersAreNotConfused(registrations: seq<Registration>)
    requires forall r | r in registrations :: PlainUser(r)
    ensures NoneConfused(registrations)
  {
    hide TrimSpace, RuleConfiguredForChannel, NEXT, ForModerators;
    forall t, q, y, u ensures !Confused(registrations, t, q, y, u) {
      LastHoldsBar(y, u);
      if Moderates(registrations, t, q, y + NEXT + u) {
        var r, id :| r in registrations && id in r.channelIDs && Asks(r, id, t, q, y + NEXT + u);
        TrimKeepsOut(r.userID, '|');
      }
    }
  }

  /** Deduplicating by key loses no subscription, whatever the channel identifiers are, when user identifiers hold no
      '|'. */
  lemma DesiredLosesNothing(registrations: seq<Registration>, result: seq<Spec>, spec: Spec)
    requires Desired(registrations, result) && forall r | r in registrations :: PlainUser(r)
    ensures spec in result <==> Wanted(registrations, spec)
  {
    PlainUsersAreNotConfused(registrations);
    LosesNothingIff(registrations, result);
    hide Wanted, KeyAscending, NoneConfused, PlainUser;
  }

  function SpecKeys(result: seq<Spec>): (keys: seq<Key>)
    ensures |keys| == |result| && forall i | 0 <= i < |result| :: keys[i] == Key(0, KeyOf(result[i]))
  {
    if result == [] then [] else [Key(0, KeyOf(result[0]))] + SpecKeys(result[1..])
  }

  lemma SpecKeysAscend(result: seq<Spec>)
    requires KeyAscending(result)
    ensures Ascending(SpecKeys(result))
  {
  }

  lemma KeysOfSubset(a: seq<Spec>, b: seq<Spec>, key: Key)
    requires forall spec | spec in a :: spec in b
    requires key in SpecKeys(a)
    ensures key in SpecKeys(b)
  {
    hide KeyOf, SpecKeys;
    var i :| 0 <= i < |a| && SpecKeys(a)[i] == key;
    assert a[i] in b;
    var j :| 0 <= j < |b| && b[j] == a[i];
    assert SpecKeys(b)[j] == key;
  }

  /** Two ascending lists of the same subscriptions are the same list. */
  lemma AscendingUnique(a: seq<Spec>, b: seq<Spec>)
    requires KeyAscending(a) && KeyAscending(b) && forall spec :: spec in a <==> spec in b
    ensures a == b
  {
    hide KeyOf, KeyAscending, Leq;
    SameKeyLists(a, b);
    forall i | 0 <= i < |a| ensures a[i] == b[i] {
      assert SpecKeys(a)[i].name == KeyOf(a[i]) && SpecKeys(b)[i].name == KeyOf(b[i]);
      assert a[i] in b;
      var j :| 0 <= j < |b| && b[j] == a[i];
      DistinctKeys(b, i, j);
    }
  }

  lemma DistinctKeys(b: seq<Spec>, i: nat, j: nat)
    requires KeyAscending(b) && i < |b| && j < |b| && KeyOf(b[i]) == KeyOf(b[j])
    ensures i == j
  {
  }

  lemma SameKeyLists(a: seq<Spec>, b: seq<Spec>)
    requires KeyAscending(a) && KeyAscending(b) && forall spec :: spec in a <==> spec in b
    ensures SpecKeys(a) == SpecKeys(b)
  {
    SpecKeysAscend(a);
    SpecKeysAscend(b);
    var ka, kb := SpecKeys(a), SpecKeys(b);
    hide KeyOf, KeyAscending, SpecKeys, Ascending;
    var keys := set key | key in ka;
    forall key ensures key in ka <==> key in kb {
      if key in ka { KeysOfSubset(a, b, key); }
      if key in kb { KeysOfSubset(b, a, key); }
    }
    SortedUnique(ka, kb, keys);
  }

  ghost predicate SameRegistrations(left: seq<Registration>, right: seq<Registration>) {
    forall r :: r in left <==> r in right
  }

  lemma WantedIgnoresOrder(left: seq<Registration>, right: seq<Registration>, spec: Spec)
    requires Wanted(left, spec) && forall r | r in left :: r in right
    ensures Wanted(right, spec)
  {
    hide SpecsFor;
  }

  lemma SameLists(left: seq<Registration>, a: seq<Spec>, right: seq<Registration>, b: seq<Spec>)
    requires Desired(left, a) && Desired(right, b) && SameRegistrations(left, right) && NoneConfused(left)
    ensures a == b
  {
    LosesNothingIff(left, a);
    KeysApartIff(left);
    hide KeyOf, Wanted, NoneConfused, KeyAscending;
    forall spec ensures spec in a <==> spec in b {
      if spec in a {
        WantedIgnoresOrder(left, right, spec);
        var other :| other in b && KeyOf(other) == KeyOf(spec);
        WantedIgnoresOrder(right, left, other);
      }
      if spec in b {
        WantedIgnoresOrder(right, left, spec);
      }
    }
    AscendingUnique(a, b);
  }

  lemma ReplacedAscends(a: seq<Spec>, i: nat, spec: Spec)
    requires KeyAscending(a) && i < |a| && KeyOf(spec) == KeyOf(a[i])
    ensures KeyAscending(a[i := spec])
  {
    hide KeyOf, Leq;
  }

  lemma ReplacedCovers(a: seq<Spec>, i: nat, spec: Spec, key: string)
    requires i < |a| && KeyOf(spec) == KeyOf(a[i]) && exists other | other in a :: KeyOf(other) == key
    ensures exists other | other in a[i := spec] :: KeyOf(other) == key
  {
    hide KeyOf;
    var other :| other in a && KeyOf(other) == key;
    var j :| 0 <= j < |a| && a[j] == other;
    assert a[i := spec][j] in a[i := spec];
  }

  lemma ReplacedHolds(a: seq<Spec>, i: nat, spec: Spec, other: Spec)
    requires i < |a| && other in a[i := spec]
    ensures other == spec || other in a
  {
  }

  lemma ReplacedIsDesired(registrations: seq<Registration>, a: seq<Spec>, i: nat, spec: Spec)
    requires Desired(registrations, a) && i < |a| && KeyOf(spec) == KeyOf(a[i]) && Wanted(registrations, spec)
    ensures Desired(registrations, a[i := spec])
  {
    hide KeyOf, Wanted, KeyAscending;
    ReplacedAscends(a, i, spec);
    forall other | other in a[i := spec] ensures Wanted(registrations, other) {
      ReplacedHolds(a, i, spec, other);
    }
    forall w | Wanted(registrations, w) ensures exists other | other in a[i := spec] :: KeyOf(other) == KeyOf(w) {
      ReplacedCovers(a, i, spec, KeyOf(w));
    }
  }

  lemma Position(registrations: seq<Registration>, a: seq<Spec>, x: Spec) returns (i: nat)
    requires Desired(registrations, a) && Wanted(registrations, x)
    ensures i < |a| && KeyOf(a[i]) == KeyOf(x)
  {
    hide KeyOf, Wanted, KeyAscending;
    var stood :| stood in a && KeyOf(stood) == KeyOf(x);
    i :| 0 <= i < |a| && a[i] == stood;
  }

  /** Where two wanted subscriptions share a key, either may stand in the list. */
  lemma Replaced(registrations: seq<Registration>, a: seq<Spec>, x: Spec, y: Spec) returns (b: seq<Spec>)
    requires Desired(registrations, a) && Wanted(registrations, x) && Wanted(registrations, y)
    requires KeyOf(x) == KeyOf(y) && x != y
    ensures Desired(registrations, b) && b != a
  {
    hide KeyOf, Wanted, Desired;
    var i := Position(registrations, a, x);
    var spec := if a[i] == x then y else x;
    b := a[i := spec];
    ReplacedIsDesired(registrations, a, i, spec);
    assert b[i] != a[i];
  }

  /** The set of registrations determines the desired list exactly if none of them are confused. */
  lemma DesiredIgnoresOrderIff(left: seq<Registration>, a: seq<Spec>)
    requires Desired(left, a)
    ensures NoneConfused(left) <==>
      forall right, b | SameRegistrations(left, right) && Desired(right, b) :: a == b
  {
    hide Desired, Confused, SameRegistrations;
    if NoneConfused(left) {
      forall right, b | SameRegistrations(left, right) && Desired(right, b) ensures a == b {
        SameLists(left, a, right, b);
      }
    } else {
      var t, q, y, u :| Confused(left, t, q, y, u);
      var x, z := ConfusedIsSwapped(left, t, q, y, u);
      SwappedShare(x, z);
      var b := Replaced(left, a, x, z);
      assert SameRegistrations(left, left) by { SameAsItself(left); }
    }
  }

  lemma SameAsItself(registrations: seq<Registration>)
    ensures SameRegistrations(registrations, registrations)
  {
  }

  /** The desired list depends on the set of registrations alone. */
  lemma DesiredIgnoresOrder(left: seq<Registration>, a: seq<Spec>, right: seq<Registration>, b: seq<Spec>)
    requires Desired(left, a) && Desired(right, b)
    requires forall r :: r in left <==> r in right
    requires forall r | r in left :: PlainUser(r)
    ensures a == b
  {
    hide Desired;
    PlainUsersAreNotConfused(left);
    SameLists(left, a, right, b);
  }

  // ---------------------------------------------------------------- two registrations that are confused

  /** A device that moderates one channel. */
  function ModeratingDevice(channelID: string, userID: string): Registration {
    Registration("i", userID, [channelID], [channelID], [], map[], map[])
  }

  predicate Clean(text: string) {
    TrimSpace(text) == text && text != ""
  }

  lemma DeviceModerates(registrations: seq<Registration>, channelID: string, userID: string)
    requires ModeratingDevice(channelID, userID) in registrations && Clean(channelID) && Clean(userID)
    ensures Moderates(registrations, "channel.moderate", channelID, userID)
  {
    var r := ModeratingDevice(channelID, userID);
    assert channelID in r.channelIDs && RuleOf("channel.moderate") == "moderation_action";
    hide TrimSpace;
    assert Asks(r, channelID, "channel.moderate", channelID, userID);
  }

  lemma NoSpaceAround(text: string)
    requires text != "" && !IsSpace(text[0]) && !IsSpace(text[|text| - 1])
    ensures Clean(text)
  {
  }

  function Moderation(channelID: string, userID: string): Spec {
    Spec("channel.moderate", "2", Moderator(channelID, userID))
  }

  /** With a bar in a user identifier one of two wanted subscriptions is lost. */
  lemma BarInUserLosesOne(x: string, y: string, z: string, result: seq<Spec>)
    requires Clean(x + NEXT + y) && Clean(z) && Clean(x) && Clean(y + NEXT + z)
    requires Desired([ModeratingDevice(x + NEXT + y, z), ModeratingDevice(x, y + NEXT + z)], result)
    ensures var both := [ModeratingDevice(x + NEXT + y, z), ModeratingDevice(x, y + NEXT + z)];
      Wanted(both, Moderation(x + NEXT + y, z)) && Wanted(both, Moderation(x, y + NEXT + z))
    ensures Moderation(x + NEXT + y, z) !in result || Moderation(x, y + NEXT + z) !in result
  {
    hide Clean, ModeratingDevice, Moderates, Moderator, NEXT, CHANNEL, USER, Wanted, KeyAscending;
    var both := [ModeratingDevice(x + NEXT + y, z), ModeratingDevice(x, y + NEXT + z)];
    var a, b := Moderation(x + NEXT + y, z), Moderation(x, y + NEXT + z);
    assert both[0] in both && both[1] in both;
    DeviceModerates(both, x + NEXT + y, z);
    DeviceModerates(both, x, y + NEXT + z);
    ModeratorEntries(x + NEXT + y, z);
    ModeratorEntries(x, y + NEXT + z);
    ModerationWantedIff(both, a);
    ModerationWantedIff(both, b);
    assert Runs(a.condition[CHANNEL], a.condition[USER], b.condition[CHANNEL], b.condition[USER], y);
    SwappedShare(a, b);
    if a in result && b in result {
      InResultOnce(result, a, b);
    }
  }

  const LONG_CHANNEL := "a|moderator_user_id=b"
  const LONG_USER := "b|moderator_user_id=c"

  lemma NamesAreClean()
    ensures Clean(LONG_CHANNEL) && Clean(LONG_USER) && Clean("a") && Clean("c")
    ensures LONG_CHANNEL == "a" + NEXT + "b" && LONG_USER == "b" + NEXT + "c"
  {
    NoSpaceAround(LONG_CHANNEL);
    NoSpaceAround(LONG_USER);
    NoSpaceAround("a");
    NoSpaceAround("c");
  }

  /** Moderator "c" on channel "a|moderator_user_id=b", and moderator "b|moderator_user_id=c" on channel "a". */
  lemma TwoDevicesLoseOne(both: seq<Registration>, result: seq<Spec>)
    requires both == [ModeratingDevice(LONG_CHANNEL, "c"), ModeratingDevice("a", LONG_USER)] && Desired(both, result)
    ensures Wanted(both, Moderation(LONG_CHANNEL, "c")) && Wanted(both, Moderation("a", LONG_USER))
    ensures Moderation(LONG_CHANNEL, "c") !in result || Moderation("a", LONG_USER) !in result
  {
    hide Clean, ModeratingDevice, NEXT, Wanted, Desired, LONG_CHANNEL, LONG_USER, Moderation;
    NamesAreClean();
    BarInUserLosesOne("a", "b", "c", result);
  }
}
