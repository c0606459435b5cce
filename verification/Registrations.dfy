/** Push registrations and the notification rules that decide which channels they care about. */
module Registrations {
  import opened Durations
  import opened Text

  datatype Registration = Registration(
    installationID: string,
    userID: string,
    channelIDs: seq<string>,
    moderatorChannelIDs: seq<string>,
    notificationRules: seq<string>,
    channelRules: map<string, seq<string>>,
    mutedUntil: map<string, int>)

  predicate RuleEnabled(registration: Registration, rule: string) {
    registration.notificationRules == [] || rule in registration.notificationRules
  }

  /** A rule list kept for one channel replaces the general list for that channel. */
  predicate RuleConfiguredForChannel(registration: Registration, rule: string, channelID: string) {
    var trimmed := TrimSpace(channelID);
    if trimmed != "" && trimmed in registration.channelRules then
      rule in registration.channelRules[trimmed]
    else
      RuleEnabled(registration, rule)
  }

  predicate AnyRuleForChannel(registration: Registration, channelID: string, rules: seq<string>) {
    exists i | 0 <= i < |rules| :: RuleConfiguredForChannel(registration, rules[i], channelID)
  }

  /** A channel muted until a point in time that has not come yet; points are milliseconds, the clock nanoseconds. */
  predicate Muted(registration: Registration, channelID: string, now: int) {
    var trimmed := TrimSpace(channelID);
    trimmed != "" && trimmed in registration.mutedUntil && registration.mutedUntil[trimmed] > now / MILLISECOND
  }

  /** Mutes only ever end. */
  lemma MutesOnlyEnd(registration: Registration, channelID: string, now: int, later: int)
    requires now <= later && Muted(registration, channelID, later)
    ensures Muted(registration, channelID, now)
  {
  }

  /** A mute ends at the very millisecond it names. */
  lemma MutedUntilThen(registration: Registration, channelID: string, now: int)
    requires TrimSpace(channelID) != ""
    ensures Muted(registration, channelID, now) <==>
      TrimSpace(channelID) in registration.mutedUntil
      && now < registration.mutedUntil[TrimSpace(channelID)] * MILLISECOND
  {
    hide TrimSpace;
  }

  /** Rules kept for a channel are all that counts for it, and they count for no other channel. */
  lemma ChannelRulesReplace(registration: Registration, rule: string, channelID: string, general: seq<string>,
                            other: string, rules: seq<string>)
    requires TrimSpace(channelID) != "" && other != TrimSpace(channelID)
    ensures var id, kept := TrimSpace(channelID), registration.channelRules;
      && (id in kept ==>
            RuleConfiguredForChannel(registration.(notificationRules := general), rule, channelID)
            == RuleConfiguredForChannel(registration, rule, channelID))
      && RuleConfiguredForChannel(registration.(channelRules := kept[other := rules]), rule, channelID)
         == RuleConfiguredForChannel(registration, rule, channelID)
      && RuleConfiguredForChannel(registration.(channelRules := kept[id := rules]), rule, channelID) == (rule in rules)
      && RuleConfiguredForChannel(registration.(channelRules := map[], notificationRules := general), rule, channelID)
         == (general == [] || rule in general)
  {
    hide TrimSpace;
  }
}
