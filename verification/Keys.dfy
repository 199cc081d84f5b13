/** Key builders of the caches, and why no two of them meet. */
module Keys {
  import opened Text

  const STATISTICS_READ_SCOPE := "statistics:read"

  function GenerationKey(scope: string, profileId: string): string {
    scope + "-gen:" + profileId
  }

  function StatisticsReadKey(profileId: string, gen: int, timespan: string): string {
    STATISTICS_READ_SCOPE + ":" + profileId + ":g" + FormatInt(gen) + ":" + timespan
  }

  function SettingsPrefix(profileId: string): string {
    "settings:" + profileId + ":"
  }

  function SettingsKey(profileId: string, name: string): string {
    SettingsPrefix(profileId) + name
  }

  function CustomRulesSetKey(profileId: string): string {
    SettingsKey(profileId, "custom_rules")
  }

  function CustomRuleKey(profileId: string, ruleId: string): string {
    SettingsKey(profileId, "custom_rule:" + ruleId)
  }

  function CeremonyKey(token: string): string {
    "webauthn_ceremony:" + token
  }

  lemma {:induction false} CancelPrefix(p: string, x: string, y: string)
    requires p + x == p + y
    ensures x == y
  {
    assert (p + x)[|p|..] == x && (p + y)[|p|..] == y;
  }

  lemma {:induction false} GenerationTagsInjective(g: int, ts: string, h: int, us: string)
    requires "g" + FormatInt(g) + ":" + ts == "g" + FormatInt(h) + ":" + us
    ensures g == h && ts == us
  {
    FormatIntInjective(g, h);
    FormatIntInjective(h, g);
    SplitAtColon("g" + FormatInt(g), ts, "g" + FormatInt(h), us);
    CancelPrefix("g", FormatInt(g), FormatInt(h));
  }

  lemma {:induction false} Regroup(scope: string, p: string, d: string, ts: string)
    ensures scope + ":" + p + ":g" + d + ":" + ts == (scope + ":") + (p + ":" + ("g" + d + ":" + ts))
  {
    assert ":g" == ":" + "g";
  }

  lemma {:induction false} TailsEqual(p: string, x: string, q: string, y: string, scope: string)
    requires ColonFree(p) && ColonFree(q)
    requires scope + (p + ":" + x) == scope + (q + ":" + y)
    ensures p == q && x == y
  {
    CancelPrefix(scope, p + ":" + x, q + ":" + y);
    SplitAtColon(p, x, q, y);
  }

  /** Answers of different profiles, generations or timespans never share a key. */
  lemma {:induction false} AnswerKeysInjective(p: string, g: int, ts: string, q: string, h: int, us: string)
    requires ColonFree(p) && ColonFree(q)
    requires StatisticsReadKey(p, g, ts) == StatisticsReadKey(q, h, us)
    ensures p == q && g == h && ts == us
  {
    Regroup(STATISTICS_READ_SCOPE, p, FormatInt(g), ts);
    Regroup(STATISTICS_READ_SCOPE, q, FormatInt(h), us);
    TailsEqual(p, "g" + FormatInt(g) + ":" + ts, q, "g" + FormatInt(h) + ":" + us, STATISTICS_READ_SCOPE + ":");
    GenerationTagsInjective(g, ts, h, us);
  }

  /** A colon in a profile id would let answers of two profiles meet. */
  lemma {:induction false} AnswerKeysMeetWithColons()
    ensures StatisticsReadKey("a", 1, "b:g2:c") == StatisticsReadKey("a:g1:b", 2, "c")
  {
    assert FormatInt(1) == "1" && FormatInt(2) == "2";
  }

  lemma {:induction false} CounterKeysInjective(p: string, q: string)
    requires GenerationKey(STATISTICS_READ_SCOPE, p) == GenerationKey(STATISTICS_READ_SCOPE, q)
    ensures p == q
  {
    CancelPrefix(STATISTICS_READ_SCOPE + "-gen:", p, q);
  }

  /** A counter is never an answer, whatever the profile ids. */
  lemma {:induction false} CounterIsNoAnswer(p: string, q: string, g: int, ts: string)
    ensures GenerationKey(STATISTICS_READ_SCOPE, p) != StatisticsReadKey(q, g, ts)
  {
    var n := |STATISTICS_READ_SCOPE|;
    assert GenerationKey(STATISTICS_READ_SCOPE, p)[n] == '-';
    assert StatisticsReadKey(q, g, ts)[n] == ':';
  }

  /** Settings keys of colon-free profiles are determined by the profile and the name. */
  lemma {:induction false} SettingsKeysInjective(p: string, x: string, q: string, y: string)
    requires ColonFree(p) && ColonFree(q)
    requires SettingsKey(p, x) == SettingsKey(q, y)
    ensures p == q && x == y
  {
    assert SettingsKey(p, x) == "settings:" + (p + ":" + x);
    assert SettingsKey(q, y) == "settings:" + (q + ":" + y);
    CancelPrefix("settings:", p + ":" + x, q + ":" + y);
    SplitAtColon(p, x, q, y);
  }

  /** Within one profile the name alone decides. */
  lemma {:induction false} SettingsNamesInjective(p: string, x: string, y: string)
    ensures SettingsKey(p, x) == SettingsKey(p, y) ==> x == y
  {
    if SettingsKey(p, x) == SettingsKey(p, y) {
      CancelPrefix(SettingsPrefix(p), x, y);
    }
  }

  /** The proxy composes the same keys from the profile's part and each name. */
  lemma {:induction false} ReaderKeysAgree(p: string, name: string, ruleId: string)
    ensures SettingsKey(p, name) == ("settings:" + p) + (":" + name)
    ensures CustomRulesSetKey(p) == ("settings:" + p) + ":custom_rules"
    ensures CustomRuleKey(p, ruleId) == ("settings:" + p) + (":custom_rule:" + ruleId)
  {
    assert SettingsKey(p, name) == "settings:" + p + ":" + name;
    assert SettingsKey(p, "custom_rules") == "settings:" + p + ":" + "custom_rules";
    assert ":" + "custom_rules" == ":custom_rules";
    assert SettingsKey(p, "custom_rule:" + ruleId) == "settings:" + p + ":" + ("custom_rule:" + ruleId);
    assert ":" + ("custom_rule:" + ruleId) == ":custom_rule:" + ruleId;
  }

  /** A rule's hash is never the set of rule keys, nor another rule's hash. */
  lemma {:induction false} RuleKeysSeparate(p: string, r: string, s: string)
    ensures CustomRuleKey(p, r) != CustomRulesSetKey(p)
    ensures CustomRuleKey(p, r) == CustomRuleKey(p, s) ==> r == s
  {
    SettingsNamesInjective(p, "custom_rule:" + r, "custom_rules");
    assert ("custom_rule:" + r)[11] == ':' && "custom_rules"[11] == 's';
    SettingsNamesInjective(p, "custom_rule:" + r, "custom_rule:" + s);
    if CustomRuleKey(p, r) == CustomRuleKey(p, s) {
      CancelPrefix("custom_rule:", r, s);
    }
  }

  /** The settings, the read cache and the ceremonies live in different parts of the keyspace. */
  lemma {:induction false} FamiliesDisjoint(p: string, x: string, q: string, g: int, ts: string, token: string)
    ensures SettingsKey(p, x) != StatisticsReadKey(q, g, ts)
    ensures SettingsKey(p, x) != GenerationKey(STATISTICS_READ_SCOPE, q)
    ensures CeremonyKey(token) != SettingsKey(p, x)
    ensures CeremonyKey(token) != StatisticsReadKey(q, g, ts)
    ensures CeremonyKey(token) != GenerationKey(STATISTICS_READ_SCOPE, q)
  {
    assert SettingsKey(p, x)[1] == 'e' && SettingsKey(p, x)[0] == 's';
    assert StatisticsReadKey(q, g, ts)[1] == 't';
    assert GenerationKey(STATISTICS_READ_SCOPE, q)[1] == 't';
    assert CeremonyKey(token)[0] == 'w';
  }
}
