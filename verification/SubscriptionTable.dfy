/** Which subscription each event type asks for, and who asks for it: the table read by event type. */
module SubscriptionTable {
  import opened Text
  import opened Registrations
  import opened SpecKey
  import opened Subscriptions

  const POINTS := "channel.channel_points_custom_reward_redemption.add"

  /** The types that name nobody but a channel. */
  predicate ForChannels(eventType: string) {
    eventType in ["channel.ban", "stream.online", "channel.update", "channel.raid", POINTS, "channel.subscribe",
                  "channel.subscription.message", "channel.subscription.gift"]
  }

  function VersionOf(eventType: string): string {
    if eventType == "channel.update" then "2" else "1"
  }

  function EntryOf(eventType: string): string {
    if eventType == "channel.raid" then "to_broadcaster_user_id" else "broadcaster_user_id"
  }

  function ChannelSpec(eventType: string, id: string): Spec {
    Spec(eventType, VersionOf(eventType), map[EntryOf(eventType) := id])
  }

  /** Any one of these rules makes a device ask for the type. */
  function RulesOf(eventType: string): seq<string> {
    if eventType == "channel.ban" then ["ban", "timeout"]
    else if eventType == "stream.online" then ["stream_online"]
    else if eventType == "channel.update" then ["title_change", "game_change"]
    else if eventType == "channel.raid" then ["raid"]
    else if eventType == POINTS then ["reward"]
    else ["subscription"]
  }

  /** Bans are for moderators, rewards and subscriptions for the broadcaster, the rest for everybody. */
  predicate Concerned(r: Registration, id: string, eventType: string) {
    if eventType == "channel.ban" then id in r.moderatorChannelIDs
    else if eventType in ["stream.online", "channel.update", "channel.raid"] then true
    else r.userID == id
  }

  predicate AsksFor(r: Registration, id: string, eventType: string) {
    Concerned(r, id, eventType) && AnyRuleForChannel(r, id, RulesOf(eventType))
  }

  lemma OneRule(r: Registration, id: string, rule: string)
    ensures AnyRuleForChannel(r, id, [rule]) <==> RuleConfiguredForChannel(r, rule, id)
  {
    assert [rule][0] == rule;
  }

  lemma OneRules(r: Registration, id: string)
    ensures AnyRuleForChannel(r, id, ["stream_online"]) <==> RuleConfiguredForChannel(r, "stream_online", id)
    ensures AnyRuleForChannel(r, id, ["raid"]) <==> RuleConfiguredForChannel(r, "raid", id)
    ensures AnyRuleForChannel(r, id, ["reward"]) <==> RuleConfiguredForChannel(r, "reward", id)
    ensures AnyRuleForChannel(r, id, ["subscription"]) <==> RuleConfiguredForChannel(r, "subscription", id)
  {
    hide *;
    OneRule(r, id, "stream_online");
    OneRule(r, id, "raid");
    OneRule(r, id, "reward");
    OneRule(r, id, "subscription");
  }

  lemma ChannelRow(r: Registration, id: string, row: Row)
    requires row in Rows(r, id) && !ForModerators(row.spec.eventType) && id != ""
    ensures ForChannels(row.spec.eventType) && row.spec == ChannelSpec(row.spec.eventType, id)
    ensures row.enabled == AsksFor(r, id, row.spec.eventType)
  {
    OneRules(r, id);
    hide RuleConfiguredForChannel, AnyRuleForChannel, Moderator;
  }

  lemma RowOfChannel(r: Registration, id: string, eventType: string) returns (row: Row)
    requires ForChannels(eventType)
    ensures row in Rows(r, id) && row.spec.eventType == eventType
  {
    hide RuleConfiguredForChannel, AnyRuleForChannel, Moderator, Broadcaster;
    var rows := Rows(r, id);
    row := if eventType == "channel.ban" then rows[2] else if eventType == "stream.online" then rows[3]
           else if eventType == "channel.update" then rows[4] else if eventType == "channel.raid" then rows[5]
           else if eventType == POINTS then rows[6] else if eventType == "channel.subscribe" then rows[7]
           else if eventType == "channel.subscription.message" then rows[8] else rows[9];
  }

  lemma AppendedChannel(eventType: string, id: string)
    ensures Appended(ChannelSpec(eventType, id))
      == if TrimSpace(id) == "" then {} else {ChannelSpec(eventType, TrimSpace(id))}
  {
    hide TrimSpace, VersionOf, EntryOf;
    var spec := ChannelSpec(eventType, id);
    assert (map key | key in spec.condition ::
              TrimSpace(spec.condition[key])) == map[EntryOf(eventType) := TrimSpace(id)];
    assert EntryOf(eventType) in spec.condition;
  }

  ghost predicate Asked(registrations: seq<Registration>, eventType: string, id: string) {
    exists r, rawID :: r in registrations && rawID in r.channelIDs && TrimSpace(rawID) == id
                       && AsksFor(r, id, eventType)
  }

  lemma AskedOnChannel(r: Registration, rawID: string, spec: Spec)
    requires !ForModerators(spec.eventType) && spec in SpecsFor(r, rawID)
    ensures ForChannels(spec.eventType) && TrimSpace(rawID) != ""
    ensures spec == ChannelSpec(spec.eventType, TrimSpace(rawID)) && AsksFor(r, TrimSpace(rawID), spec.eventType)
  {
    hide Rows, TrimSpace, ForModerators, ForChannels, ChannelSpec, AsksFor;
    var id := TrimSpace(rawID);
    var row :| row in Rows(r, id) && row.enabled && spec in Appended(row.spec);
    assert row.spec.eventType == spec.eventType;
    ChannelRow(r, id, row);
    AppendedChannel(spec.eventType, id);
    TrimTwice(rawID);
  }

  lemma ChannelIsAsked(r: Registration, rawID: string, eventType: string)
    requires ForChannels(eventType) && TrimSpace(rawID) != "" && AsksFor(r, TrimSpace(rawID), eventType)
    ensures ChannelSpec(eventType, TrimSpace(rawID)) in SpecsFor(r, rawID)
  {
    NotForModerators(eventType);
    hide Rows, TrimSpace, ForModerators, ForChannels, ChannelSpec, AsksFor, Appended;
    var id := TrimSpace(rawID);
    var row := RowOfChannel(r, id, eventType);
    ChannelRow(r, id, row);
    AppendedChannel(eventType, id);
    TrimTwice(rawID);
  }

  lemma NotForModerators(eventType: string)
    requires ForChannels(eventType)
    ensures !ForModerators(eventType)
  {
  }

  /** Every other wanted subscription is the one of its type for a channel that some device concerned has a rule for. */
  lemma ChannelWantedIff(registrations: seq<Registration>, spec: Spec)
    requires !ForModerators(spec.eventType)
    ensures Wanted(registrations, spec) <==>
      ForChannels(spec.eventType)
      && exists id :: id != "" && spec == ChannelSpec(spec.eventType, id) && Asked(registrations, spec.eventType, id)
  {
    hide SpecsFor, TrimSpace, ForModerators, ForChannels, ChannelSpec, AsksFor;
    if Wanted(registrations, spec) {
      var r, rawID :| r in registrations && rawID in r.channelIDs && spec in SpecsFor(r, rawID);
      AskedOnChannel(r, rawID, spec);
      assert Asked(registrations, spec.eventType, TrimSpace(rawID));
    }
    if ForChannels(spec.eventType) {
      forall id | id != "" && spec == ChannelSpec(spec.eventType, id) && Asked(registrations, spec.eventType, id)
        ensures Wanted(registrations, spec)
      {
        var r, rawID :| r in registrations && rawID in r.channelIDs && TrimSpace(rawID) == id
                        && AsksFor(r, id, spec.eventType);
        ChannelIsAsked(r, rawID, spec.eventType);
      }
    }
  }
}
