/** Profile settings, and the Redis commands that mirror them for the proxy. */
module ProfileSettings {
  import opened Wrappers
  import opened Redis
  import opened Keys

  /** The hash fields of a settings struct; every such struct has at least one. */
  type FieldMap = m: map<string, string> | |m| > 0 witness map["enabled" := "0"]

  /** The fields of a custom rule that reach Redis; its note, group and order do not. */
  datatype Rule = Rule(id: string, action: string, value: string, syntax: string) {
    function Hash(): FieldMap {
      map["action" := action, "value" := value, "syntax" := syntax]
    }
  }

  const RULE_FIELDS: set<string> := {"action", "value", "syntax"}

  datatype Settings = Settings(profileId: string, blocklists: seq<string>, services: seq<string>,
                               logs: FieldMap, statistics: Option<FieldMap>, dnssec: FieldMap,
                               rebinding: FieldMap, advanced: FieldMap, privacy: FieldMap,
                               rules: seq<Rule>)

  /** What is written for a profile whose statistics settings are missing. */
  const NO_STATISTICS: FieldMap := map["enabled" := "0", "retention" := ""]

  /** A single value for one of the settings hashes. */
  datatype SettingsField = SettingsField(hash: string, field: string, value: string)

  function OneField(f: SettingsField): FieldMap {
    map[f.field := f.value]
  }

  /** The settings hashes, in the order an update writes them. */
  const HASH_ORDER: seq<string> :=
    ["logs", "statistics", "security:dnssec", "security:rebinding_protection", "advanced", "privacy"]

  const HASH_NAMES: set<string> := Elements(HASH_ORDER)

  const FIXED_NAMES: seq<string> :=
    ["blocklists", "services", "logs", "privacy", "advanced", "statistics", "security:dnssec",
     "security:rebinding_protection"]

  /** The struct written to each settings hash. */
  function HashesOf(st: Settings): (hs: map<string, FieldMap>)
    ensures hs.Keys == HASH_NAMES
  {
    map["logs" := st.logs,
        "statistics" := if st.statistics.Some? then st.statistics.value else NO_STATISTICS,
        "security:dnssec" := st.dnssec,
        "security:rebinding_protection" := st.rebinding,
        "advanced" := st.advanced,
        "privacy" := st.privacy]
  }

  function Pushes(key: string, ids: seq<string>): seq<Cmd> {
    seq(|ids|, i requires 0 <= i < |ids| => RPush(key, [ids[i]]))
  }

  function HashWrite(st: Settings, name: string): Cmd
    requires name in HASH_NAMES
  {
    HSet(SettingsKey(st.profileId, name), HashesOf(st)[name])
  }

  /** A list is rewritten from scratch, one push per element. */
  function ListWrites(key: string, ids: seq<string>): seq<Cmd> {
    [Del([key])] + Pushes(key, ids)
  }

  function HashWrites(st: Settings): seq<Cmd> {
    seq(|HASH_ORDER|, i requires 0 <= i < |HASH_ORDER| => HashWrite(st, HASH_ORDER[i]))
  }

  function SettingsWrites(st: Settings): seq<Cmd> {
    ListWrites(SettingsKey(st.profileId, "blocklists"), st.blocklists)
    + ListWrites(SettingsKey(st.profileId, "services"), st.services)
    + HashWrites(st)
  }

  function RuleKeys(profileId: string, rules: seq<Rule>): (ks: seq<string>)
    ensures |ks| == |rules|
  {
    seq(|rules|, i requires 0 <= i < |rules| => CustomRuleKey(profileId, rules[i].id))
  }

  function RuleWrites(profileId: string, rules: seq<Rule>): seq<Cmd> {
    seq(|rules|, i requires 0 <= i < |rules| => HSet(CustomRuleKey(profileId, rules[i].id), rules[i].Hash()))
  }

  /** The rules themselves come first, and what makes them visible to a reader comes last. */
  function RulesQueue(profileId: string, rules: seq<Rule>): seq<Cmd> {
    if rules == [] then []
    else RuleWrites(profileId, rules) + [SAdd(CustomRulesSetKey(profileId), RuleKeys(profileId, rules))]
  }

  /** The stored keys that are not kept, in the order the server listed them. */
  function Stale(stored: seq<string>, keep: set<string>): (out: seq<string>)
    ensures forall k :: k in out <==> k in stored && k !in keep
  {
    if stored == [] then []
    else (if stored[0] in keep then [] else [stored[0]]) + Stale(stored[1..], keep)
  }

  lemma {:induction false} StaleSnoc(stored: seq<string>, x: string, keep: set<string>)
    ensures Stale(stored + [x], keep) == Stale(stored, keep) + (if x in keep then [] else [x])
    decreases |stored|
  {
    if stored == [] {
      assert [] + [x] == [x];
    } else {
      assert (stored + [x])[1..] == stored[1..] + [x];
      StaleSnoc(stored[1..], x, keep);
    }
  }

  function StaleQueue(profileId: string, stale: seq<string>): seq<Cmd> {
    if stale == [] then [] else [SRem(CustomRulesSetKey(profileId), stale), Del(stale)]
  }

  /** An add of the wanted rules, followed by the removal of what was listed and is not wanted. */
  function ReplaceQueue(profileId: string, rules: seq<Rule>, stored: seq<string>): seq<Cmd> {
    RulesQueue(profileId, rules)
    + StaleQueue(profileId, Stale(stored, Elements(RuleKeys(profileId, rules))))
  }

  function UpdateCommands(st: Settings, stored: seq<string>): seq<Cmd> {
    SettingsWrites(st) + ReplaceQueue(st.profileId, st.rules, stored)
  }

  function FieldWrites(profileId: string, fields: seq<SettingsField>): seq<Cmd> {
    seq(|fields|, i requires 0 <= i < |fields| =>
      HSet(SettingsKey(profileId, fields[i].hash), OneField(fields[i])))
  }

  function AppendCommands(profileId: string, name: string, ids: seq<string>): seq<Cmd> {
    if ids == [] then [] else [RPush(SettingsKey(profileId, name), ids)]
  }

  function RemoveCommands(profileId: string, name: string, ids: seq<string>): seq<Cmd> {
    seq(|ids|, i requires 0 <= i < |ids| => LRem(SettingsKey(profileId, name), ids[i]))
  }

  function RemoveRuleCommands(profileId: string, ruleId: string): seq<Cmd> {
    [Del([CustomRuleKey(profileId, ruleId)]),
     SRem(CustomRulesSetKey(profileId), [CustomRuleKey(profileId, ruleId)])]
  }

  function FixedKeys(profileId: string): (ks: seq<string>)
    ensures |ks| == |FIXED_NAMES|
  {
    seq(|FIXED_NAMES|, i requires 0 <= i < |FIXED_NAMES| => SettingsPrefix(profileId) + FIXED_NAMES[i])
  }

  function KeyDeletes(keys: seq<string>): seq<Cmd> {
    seq(|keys|, i requires 0 <= i < |keys| => Del([keys[i]]))
  }

  /** The fixed keys at once, then every listed rule hash, then the set that listed them. */
  function DeleteCommands(profileId: string, stored: seq<string>): seq<Cmd> {
    [Del(FixedKeys(profileId))] + KeyDeletes(stored) + [Del([CustomRulesSetKey(profileId)])]
  }

  /** An order in which SMEMBERS may list a set. */
  predicate Lists(stored: seq<string>, elems: set<string>) {
    Elements(stored) == elems && |stored| == |elems|
  }
}
