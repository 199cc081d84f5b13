/**
 * Custom rules while pipelines are under way: what the proxy reads between two commands, what a
 * pipeline that breaks off leaves behind, and what interleaved pipelines end with.
 */
module RuleConcurrency {
  import opened Wrappers
  import opened Redis
  import opened Keys
  import opened ProfileSettings
  import opened CustomRules

  /** h is the hash of a rule the caller wants under key k. */
  ghost predicate NewHash(profileId: string, rules: seq<Rule>, k: string, h: map<string, string>) {
    exists r :: r in rules && CustomRuleKey(profileId, r.id) == k && h == r.Hash()
  }

  ghost predicate Wanted(profileId: string, rules: seq<Rule>, k: string) {
    k in RuleKeys(profileId, rules)
  }

  lemma {:induction false} WantedRule(profileId: string, rules: seq<Rule>, k: string)
    ensures Wanted(profileId, rules, k) <==> LastRule(profileId, rules, k).Some?
    ensures Wanted(profileId, rules, k) ==> NewHash(profileId, rules, k, LastRule(profileId, rules, k).value.Hash())
  {
  }

  /** How the status of a key may move during a replacement, in whatever order its commands run. */
  ghost predicate Evolves(profileId: string, rules: seq<Rule>, stored: seq<string>, k: string, st: Status,
                          st': Status) {
    if Wanted(profileId, rules, k) then
      (st.indexed ==> st'.indexed) && (st'.hash == st.hash || NewHash(profileId, rules, k, st'.hash))
    else if k in stored then
      (st'.indexed ==> st.indexed) && (st'.hash == st.hash || st'.hash == map[])
    else st' == st
  }

  const SETTINGS_NAMES: set<string> := HASH_NAMES + {"blocklists", "services"}

  /** A command of the settings part of an update: it writes one key. */
  predicate PlainWrite(c: Cmd, key: string) {
    || c == Del([key])
    || (c.RPush? && c.key == key)
    || (c.HSet? && c.key == key && |c.fields| > 0)
  }

  lemma {:induction false} ListWritesPlain(key: string, ids: seq<string>)
    ensures forall c :: c in ListWrites(key, ids) ==> PlainWrite(c, key)
  {
  }

  lemma {:induction false} HashWritesPlain(st: Settings, c: Cmd) returns (name: string)
    requires c in HashWrites(st)
    ensures name in HASH_NAMES && PlainWrite(c, SettingsKey(st.profileId, name))
  {
    var i :| 0 <= i < |HashWrites(st)| && HashWrites(st)[i] == c;
    name := HASH_ORDER[i];
  }

  lemma {:induction false} SettingsWritesPlain(st: Settings, c: Cmd) returns (name: string)
    requires c in SettingsWrites(st)
    ensures name in SETTINGS_NAMES && PlainWrite(c, SettingsKey(st.profileId, name))
  {
    ListWritesPlain(SettingsKey(st.profileId, "blocklists"), st.blocklists);
    ListWritesPlain(SettingsKey(st.profileId, "services"), st.services);
    if c in ListWrites(SettingsKey(st.profileId, "blocklists"), st.blocklists) {
      name := "blocklists";
    } else if c in ListWrites(SettingsKey(st.profileId, "services"), st.services) {
      name := "services";
    } else {
      name := HashWritesPlain(st, c);
    }
  }

  lemma {:induction false} SettingsNamesOutside(name: string)
    requires name in SETTINGS_NAMES
    ensures Outside(name)
  {
    assert "custom_rule:"[0] == "custom_rules"[0] == 'c' != name[0];
  }

  /** The settings part of an update neither touches nor spoils any rule key. */
  lemma {:induction false} SettingsWritesApart(st: Settings, k: string)
    requires IsRuleKey(st.profileId, k)
    ensures forall c :: c in SettingsWrites(st) ==> Respects(st.profileId, c) && !Touches(st.profileId, c, k)
  {
    forall c | c in SettingsWrites(st) ensures Respects(st.profileId, c) && !Touches(st.profileId, c, k) {
      var name := SettingsWritesPlain(st, c);
      SettingsNamesOutside(name);
      OutsideRules(st.profileId, name);
    }
  }

  lemma {:induction false} RuleWriteEvolves(profileId: string, rules: seq<Rule>, stored: seq<string>, i: nat,
                                            k: string, st: Status)
    requires i < |rules| && st.hash.Keys <= RULE_FIELDS
    ensures var c := HSet(CustomRuleKey(profileId, rules[i].id), rules[i].Hash());
            && Evolves(profileId, rules, stored, k, st, Effect(profileId, c, k, st))
            && Effect(profileId, c, k, st).hash.Keys <= RULE_FIELDS
  {
    HashOverwrites(st.hash, rules[i]);
    assert RuleKeys(profileId, rules)[i] == CustomRuleKey(profileId, rules[i].id);
  }

  lemma {:induction false} StaleEvolves(profileId: string, rules: seq<Rule>, stored: seq<string>, c: Cmd, k: string,
                                        st: Status)
    requires c in StaleQueue(profileId, Stale(stored, Elements(RuleKeys(profileId, rules))))
    requires AllRuleKeys(profileId, stored)
    ensures Evolves(profileId, rules, stored, k, st, Effect(profileId, c, k, st))
  {
    SetKeyIsNoRuleKey(profileId);
    var stale := Stale(stored, Elements(RuleKeys(profileId, rules)));
    assert c == SRem(CustomRulesSetKey(profileId), stale) || c == Del(stale);
  }

  lemma {:induction false} CommandEvolves(profileId: string, rules: seq<Rule>, stored: seq<string>, c: Cmd, k: string,
                                          st: Status)
    requires c in ReplaceQueue(profileId, rules, stored) && AllRuleKeys(profileId, stored)
    requires st.hash.Keys <= RULE_FIELDS
    ensures Evolves(profileId, rules, stored, k, st, Effect(profileId, c, k, st))
    ensures Effect(profileId, c, k, st).hash.Keys <= RULE_FIELDS
  {
    if c in RuleWrites(profileId, rules) {
      var i :| 0 <= i < |rules| && c == HSet(CustomRuleKey(profileId, rules[i].id), rules[i].Hash());
      RuleWriteEvolves(profileId, rules, stored, i, k, st);
    } else if c == SAdd(CustomRulesSetKey(profileId), RuleKeys(profileId, rules)) {
    } else {
      StaleEvolves(profileId, rules, stored, c, k, st);
    }
  }

  lemma {:induction false} ReplaceEvolves(profileId: string, rules: seq<Rule>, stored: seq<string>, cs: seq<Cmd>,
                                          k: string, st: Status)
    requires forall c :: c in cs ==> c in ReplaceQueue(profileId, rules, stored)
    requires AllRuleKeys(profileId, stored) && st.hash.Keys <= RULE_FIELDS
    ensures Evolves(profileId, rules, stored, k, st, Effects(profileId, cs, k, st))
    ensures Effects(profileId, cs, k, st).hash.Keys <= RULE_FIELDS
    decreases |cs|
  {
    if cs != [] {
      CommandEvolves(profileId, rules, stored, cs[0], k, st);
      ReplaceEvolves(profileId, rules, stored, cs[1..], k, Effect(profileId, cs[0], k, st));
    }
  }

  // ------------------------------------------------------------------ a prefix of a replacement

  lemma {:induction false} PrefixOfSum(a: seq<Cmd>, b: seq<Cmd>, n: nat)
    requires n <= |a| + |b|
    ensures (a + b)[..n] == if n <= |a| then a[..n] else a + b[..n - |a|]
  {
  }

  lemma {:induction false} UntouchedPrefix(profileId: string, a: seq<Cmd>, b: seq<Cmd>, n: nat, k: string, st: Status)
    requires n <= |a| + |b| && forall c :: c in a ==> !Touches(profileId, c, k)
    ensures Effects(profileId, (a + b)[..n], k, st) ==
            Effects(profileId, b[..if n <= |a| then 0 else n - |a|], k, st)
  {
    PrefixOfSum(a, b, n);
    if n <= |a| {
      Untouched(profileId, a[..n], k, st);
    } else {
      Untouched(profileId, a, k, st);
      EffectsSplit(profileId, a, b[..n - |a|], k, st);
    }
  }

  lemma {:induction false} WritesKeepIndexed(profileId: string, cs: seq<Cmd>, k: string, st: Status)
    requires forall c :: c in cs ==> c.HSet?
    ensures Effects(profileId, cs, k, st).indexed == st.indexed
    decreases |cs|
  {
    if cs != [] {
      assert cs[0] in cs;
      WritesKeepIndexed(profileId, cs[1..], k, Effect(profileId, cs[0], k, st));
    }
  }

  /** A wanted rule becomes listed only once its new hash is written. */
  lemma {:induction false} ListedAfterWritten(profileId: string, rules: seq<Rule>, stored: seq<string>, n: nat,
                                              k: string, st: Status)
    requires n <= |ReplaceQueue(profileId, rules, stored)| && AllRuleKeys(profileId, stored)
    requires st.hash.Keys <= RULE_FIELDS && Wanted(profileId, rules, k) && !st.indexed
    ensures var st' := Effects(profileId, ReplaceQueue(profileId, rules, stored)[..n], k, st);
            st'.indexed ==> NewHash(profileId, rules, k, st'.hash)
  {
    var all := ReplaceQueue(profileId, rules, stored);
    var writes := RuleWrites(profileId, rules);
    var rest := all[|writes|..];
    assert all[..|writes|] == writes;
    assert all == writes + rest;
    PrefixOfSum(writes, rest, n);
    if n <= |writes| {
      WritesKeepIndexed(profileId, all[..n], k, st);
    } else {
      WantedRule(profileId, rules, k);
      RuleWritesEffect(profileId, rules, k, st);
      var mid := Effects(profileId, writes, k, st);
      EffectsSplit(profileId, writes, rest[..n - |writes|], k, st);
      ReplaceEvolves(profileId, rules, stored, rest[..n - |writes|], k, mid);
    }
  }

  lemma {:induction false} UnwantedUntouched(profileId: string, rules: seq<Rule>, k: string)
    requires !Wanted(profileId, rules, k)
    ensures forall c :: c in RulesQueue(profileId, rules) ==> !Touches(profileId, c, k)
  {
    var keys := RuleKeys(profileId, rules);
    forall c | c in RuleWrites(profileId, rules) ensures !Touches(profileId, c, k) {
      var i :| 0 <= i < |rules| && c == HSet(CustomRuleKey(profileId, rules[i].id), rules[i].Hash());
      assert keys[i] == CustomRuleKey(profileId, rules[i].id);
    }
  }

  lemma {:induction false} StalePrefixEffect(profileId: string, stale: seq<string>, m: nat, k: string, st: Status)
    requires m <= |StaleQueue(profileId, stale)| && AllRuleKeys(profileId, stale)
    ensures Effects(profileId, StaleQueue(profileId, stale)[..m], k, st)
            in {st, st.(indexed := false), Status(false, map[])}
  {
    var q := StaleQueue(profileId, stale);
    if m == 1 {
      assert q[..1] == [q[0]];
      assert Effects(profileId, [q[0]], k, st) == Effect(profileId, q[0], k, st);
    } else if m == 2 {
      StaleEffect(profileId, stale, k, st);
      assert q[..2] == q;
    }
  }

  /** A stale rule is unlisted before its hash goes. */
  lemma {:induction false} UnlistedBeforeDeleted(profileId: string, rules: seq<Rule>, stored: seq<string>, n: nat,
                                                 k: string, st: Status)
    requires n <= |ReplaceQueue(profileId, rules, stored)| && AllRuleKeys(profileId, stored)
    requires !Wanted(profileId, rules, k) && IsRuleKey(profileId, k)
    ensures Effects(profileId, ReplaceQueue(profileId, rules, stored)[..n], k, st)
            in {st, st.(indexed := false), Status(false, map[])}
  {
    UnwantedUntouched(profileId, rules, k);
    var stale := Stale(stored, Elements(RuleKeys(profileId, rules)));
    var q := StaleQueue(profileId, stale);
    UntouchedPrefix(profileId, RulesQueue(profileId, rules), q, n, k, st);
    StalePrefixEffect(profileId, stale,
                      if n <= |RulesQueue(profileId, rules)| then 0 else n - |RulesQueue(profileId, rules)|, k, st);
  }

  /** The part of an update prefix that concerns the rules. */
  function RulePart(st: Settings, n: nat): nat {
    if n <= |SettingsWrites(st)| then 0 else n - |SettingsWrites(st)|
  }

  lemma {:induction false} UpdatePrefix(st: Settings, stored: seq<string>, n: nat, k: string, s: Status)
    requires n <= |UpdateCommands(st, stored)| && IsRuleKey(st.profileId, k)
    ensures Effects(st.profileId, UpdateCommands(st, stored)[..n], k, s) ==
            Effects(st.profileId, ReplaceQueue(st.profileId, st.rules, stored)[..RulePart(st, n)], k, s)
  {
    SettingsWritesApart(st, k);
    UntouchedPrefix(st.profileId, SettingsWrites(st), ReplaceQueue(st.profileId, st.rules, stored), n, k, s);
  }

  lemma {:induction false} UpdateRespects(st: Settings, stored: seq<string>)
    requires AllRuleKeys(st.profileId, stored)
    ensures forall c :: c in UpdateCommands(st, stored) ==> Respects(st.profileId, c)
  {
    QueuesRespect(st.profileId, st.rules, stored);
    RuleKeyIsRuleKey(st.profileId, "");
    SettingsWritesApart(st, CustomRuleKey(st.profileId, ""));
  }

  /** The store after n commands of an update, seen at one rule key. */
  lemma {:induction false} UpdateStatus(db: Db, st: Settings, stored: seq<string>, n: nat, k: string)
    requires Typed(db, st.profileId) && AllRuleKeys(st.profileId, stored)
    requires n <= |UpdateCommands(st, stored)| && IsRuleKey(st.profileId, k)
    ensures Typed(Run(db, UpdateCommands(st, stored)[..n]), st.profileId)
    ensures StatusOf(Run(db, UpdateCommands(st, stored)[..n]), st.profileId, k) ==
            Effects(st.profileId, ReplaceQueue(st.profileId, st.rules, stored)[..RulePart(st, n)], k,
                    StatusOf(db, st.profileId, k))
  {
    UpdateRespects(st, stored);
    EffectsSound(db, st.profileId, UpdateCommands(st, stored)[..n]);
    UpdatePrefix(st, stored, n, k, StatusOf(db, st.profileId, k));
  }

  lemma {:induction false} ListsMembers(db: Db, profileId: string, stored: seq<string>)
    requires Typed(db, profileId) && Lists(stored, Index(db, profileId))
    ensures AllRuleKeys(profileId, stored)
    ensures forall k :: k in stored <==> k in Index(db, profileId)
  {
    assert forall k :: k in stored <==> k in Elements(stored);
  }

  lemma {:induction false} ReaderStatuses(profileId: string, rules: seq<Rule>, stored: seq<string>, m: nat, n: nat,
                                          k: string, s: Status)
    requires AllRuleKeys(profileId, stored) && s.hash.Keys <= RULE_FIELDS && (s.indexed ==> s.hash != map[])
    requires m <= n <= |ReplaceQueue(profileId, rules, stored)|
    ensures var atM := Effects(profileId, ReplaceQueue(profileId, rules, stored)[..m], k, s);
            var atN := Effects(profileId, ReplaceQueue(profileId, rules, stored)[..n], k, s);
            && (Wanted(profileId, rules, k) && s.indexed ==> atM.indexed)
            && (Wanted(profileId, rules, k) && atM.indexed ==>
                  (s.indexed && atN.hash == s.hash) || NewHash(profileId, rules, k, atN.hash))
            && (!Wanted(profileId, rules, k) ==>
                  (atM.indexed ==> s.indexed) && (atN.hash == s.hash || atN.hash == map[]))
  {
    var q := ReplaceQueue(profileId, rules, stored);
    assert q[..n] == q[..m] + q[m..n];
    EffectsSplit(profileId, q[..m], q[m..n], k, s);
    ReplaceEvolves(profileId, rules, stored, q[..m], k, s);
    ReplaceEvolves(profileId, rules, stored, q[m..n], k, Effects(profileId, q[..m], k, s));
    if Wanted(profileId, rules, k) && !s.indexed {
      ListedAfterWritten(profileId, rules, stored, m, k, s);
    }
  }

  /**
   * Reader safety. A reader takes the set after i commands of an update and a rule's hash after j
   * >= i commands. Every rule that stays is in the set; the hash of a listed rule the caller wants
   * is the old one or a wanted one, never empty or mixed; a listed rule that goes shows its old
   * hash or nothing.
   */
  lemma {:induction false} ReaderSafety(db: Db, st: Settings, stored: seq<string>, i: nat, j: nat, k: string)
    requires Typed(db, st.profileId) && Lists(stored, Index(db, st.profileId)) && NoDangling(db, st.profileId)
    requires i <= j <= |UpdateCommands(st, stored)| && IsRuleKey(st.profileId, k)
    ensures var seen := Index(Run(db, UpdateCommands(st, stored)[..i]), st.profileId);
            var hash := Run(db, UpdateCommands(st, stored)[..j]).Fields(k);
            && (k in Index(db, st.profileId) && Wanted(st.profileId, st.rules, k) ==> k in seen)
            && (k in seen && Wanted(st.profileId, st.rules, k) ==>
                  (k in Index(db, st.profileId) && hash == db.Fields(k) && hash != map[])
                  || NewHash(st.profileId, st.rules, k, hash))
            && (k in seen && !Wanted(st.profileId, st.rules, k) ==>
                  k in Index(db, st.profileId) && (hash == db.Fields(k) || hash == map[]))
  {
    ListsMembers(db, st.profileId, stored);
    UpdateStatus(db, st, stored, i, k);
    UpdateStatus(db, st, stored, j, k);
    ReaderStatuses(st.profileId, st.rules, stored, RulePart(st, i), RulePart(st, j), k, StatusOf(db, st.profileId, k));
  }

  // ------------------------------------------------------------------ where a pipeline breaks off

  /** Every listed rule has a hash. */
  ghost predicate NoDangling(db: Db, profileId: string) {
    forall k :: k in Index(db, profileId) ==> db.Fields(k) != map[]
  }

  /** Every rule hash is listed. */
  ghost predicate NoOrphan(db: Db, profileId: string) {
    forall k :: IsRuleKey(profileId, k) && db.Fields(k) != map[] ==> k in Index(db, profileId)
  }

  /** At every command of an update, a listed rule has a hash. */
  lemma {:induction false} UpdateKeepsNoDangling(db: Db, st: Settings, stored: seq<string>, n: nat)
    requires Typed(db, st.profileId) && Lists(stored, Index(db, st.profileId)) && NoDangling(db, st.profileId)
    requires n <= |UpdateCommands(st, stored)|
    ensures NoDangling(Run(db, UpdateCommands(st, stored)[..n]), st.profileId)
  {
    ListsMembers(db, st.profileId, stored);
    RuleKeyIsRuleKey(st.profileId, "");
    UpdateStatus(db, st, stored, n, CustomRuleKey(st.profileId, ""));
    var db' := Run(db, UpdateCommands(st, stored)[..n]);
    forall k | k in Index(db', st.profileId) ensures db'.Fields(k) != map[] {
      UpdateStatus(db, st, stored, n, k);
      ReplaceNoDangling(st.profileId, st.rules, stored, RulePart(st, n), k, StatusOf(db, st.profileId, k));
    }
  }

  lemma {:induction false} ReplaceNoDangling(profileId: string, rules: seq<Rule>, stored: seq<string>, n: nat,
                                             k: string, st: Status)
    requires n <= |ReplaceQueue(profileId, rules, stored)| && AllRuleKeys(profileId, stored)
    requires IsRuleKey(profileId, k) && st.hash.Keys <= RULE_FIELDS && (st.indexed ==> st.hash != map[])
    ensures var st' := Effects(profileId, ReplaceQueue(profileId, rules, stored)[..n], k, st);
            st'.indexed ==> st'.hash != map[]
  {
    if Wanted(profileId, rules, k) {
      ReplaceEvolves(profileId, rules, stored, ReplaceQueue(profileId, rules, stored)[..n], k, st);
      if !st.indexed {
        ListedAfterWritten(profileId, rules, stored, n, k, st);
      }
    } else {
      UnlistedBeforeDeleted(profileId, rules, stored, n, k, st);
    }
  }

  /** At every command of AddCustomRules, a listed rule has a hash. */
  lemma {:induction false} AddKeepsNoDangling(db: Db, profileId: string, rules: seq<Rule>, n: nat)
    requires Typed(db, profileId) && NoDangling(db, profileId) && n <= |RulesQueue(profileId, rules)|
    ensures NoDangling(Run(db, RulesQueue(profileId, rules)[..n]), profileId)
  {
    assert RulesQueue(profileId, rules) == ReplaceQueue(profileId, rules, []);
    QueuesRespect(profileId, rules, []);
    EffectsSound(db, profileId, RulesQueue(profileId, rules)[..n]);
    var db' := Run(db, RulesQueue(profileId, rules)[..n]);
    forall k | k in Index(db', profileId) ensures db'.Fields(k) != map[] {
      ReplaceNoDangling(profileId, rules, [], n, k, StatusOf(db, profileId, k));
    }
  }

  /** At every command of RemoveCustomRule, a rule hash is listed. */
  lemma {:induction false} RemoveKeepsNoOrphan(db: Db, profileId: string, ruleId: string, n: nat)
    requires Typed(db, profileId) && NoOrphan(db, profileId) && n <= 2
    ensures NoOrphan(Run(db, RemoveRuleCommands(profileId, ruleId)[..n]), profileId)
  {
    SetKeyIsNoRuleKey(profileId);
    RuleKeyIsRuleKey(profileId, ruleId);
    var cs := RemoveRuleCommands(profileId, ruleId);
    EffectsSound(db, profileId, cs[..n]);
    forall k | IsRuleKey(profileId, k)
      ensures StatusOf(Run(db, cs[..n]), profileId, k) == StatusOf(db, profileId, k)
              || StatusOf(Run(db, cs[..n]), profileId, k).hash == map[]
    {
      RemoveEffect(profileId, ruleId, n, k, StatusOf(db, profileId, k));
    }
  }

  lemma {:induction false} RemoveEffect(profileId: string, ruleId: string, n: nat, k: string, st: Status)
    requires IsRuleKey(profileId, k) && n <= 2
    ensures Effects(profileId, RemoveRuleCommands(profileId, ruleId)[..n], k, st) ==
            if k != CustomRuleKey(profileId, ruleId) || n == 0 then st
            else Status(st.indexed && n == 1, map[])
  {
    SetKeyIsNoRuleKey(profileId);
    RuleKeyIsRuleKey(profileId, ruleId);
    var cs := RemoveRuleCommands(profileId, ruleId);
    if n == 1 {
      assert cs[..1] == [cs[0]];
      assert Effects(profileId, [cs[0]], k, st) == Effect(profileId, cs[0], k, st);
    } else if n == 2 {
      assert cs[..2] == [cs[0]] + [cs[1]];
      EffectsSplit(profileId, [cs[0]], [cs[1]], k, st);
      assert Effects(profileId, [cs[0]], k, st) == Effect(profileId, cs[0], k, st);
    }
  }

  lemma {:induction false} KeyDeletesEffect(profileId: string, keys: seq<string>, k: string, st: Status)
    requires AllRuleKeys(profileId, keys)
    ensures Effects(profileId, KeyDeletes(keys), k, st) == (if k in keys then st.(hash := map[]) else st)
    decreases |keys|
  {
    if keys != [] {
      SetKeyIsNoRuleKey(profileId);
      assert KeyDeletes(keys)[1..] == KeyDeletes(keys[1..]);
      KeyDeletesEffect(profileId, keys[1..], k, Effect(profileId, Del([keys[0]]), k, st));
    }
  }

  lemma {:induction false} FixedKeysOutside(profileId: string)
    ensures CustomRulesSetKey(profileId) !in FixedKeys(profileId)
    ensures forall k :: k in FixedKeys(profileId) ==> !IsRuleKey(profileId, k)
  {
    forall i | 0 <= i < |FIXED_NAMES|
      ensures FixedKeys(profileId)[i] != CustomRulesSetKey(profileId)
      ensures !IsRuleKey(profileId, FixedKeys(profileId)[i])
    {
      assert FIXED_NAMES[i] in SETTINGS_NAMES;
      SettingsNamesOutside(FIXED_NAMES[i]);
      OutsideRules(profileId, FIXED_NAMES[i]);
    }
  }

  /** How many listed rule hashes are gone after n commands of a deletion. */
  function Deleted(stored: seq<string>, n: nat): (m: nat)
    ensures m <= |stored|
  {
    if n <= 1 then 0 else if n - 1 <= |stored| then n - 1 else |stored|
  }

  lemma {:induction false} DeletePrefixEffect(profileId: string, stored: seq<string>, n: nat, k: string, st: Status)
    requires IsRuleKey(profileId, k) && AllRuleKeys(profileId, stored) && n <= |stored| + 2
    ensures Effects(profileId, DeleteCommands(profileId, stored)[..n], k, st) ==
            Status(st.indexed && n < |stored| + 2, if k in stored[..Deleted(stored, n)] then map[] else st.hash)
  {
    FixedKeysOutside(profileId);
    SetKeyIsNoRuleKey(profileId);
    var fixed, index := Del(FixedKeys(profileId)), Del([CustomRulesSetKey(profileId)]);
    var cs := DeleteCommands(profileId, stored);
    if n > 0 {
      var m := Deleted(stored, n);
      var mid := KeyDeletes(stored[..m]);
      KeyDeletesEffect(profileId, stored[..m], k, st);
      assert cs[..m + 1] == [fixed] + mid;
      EffectsSplit(profileId, [fixed], mid, k, st);
      assert Effects(profileId, [fixed], k, st) == Effect(profileId, fixed, k, st) == st;
      if n == |stored| + 2 {
        assert cs[..n] == cs[..m + 1] + [index];
        EffectsSplit(profileId, cs[..m + 1], [index], k, st);
        var s := Effects(profileId, mid, k, st);
        assert Effects(profileId, [index], k, s) == Effect(profileId, index, k, s);
        assert stored[..m] == stored;
      }
    }
  }

  lemma {:induction false} DeleteRespects(profileId: string, stored: seq<string>)
    ensures forall c :: c in DeleteCommands(profileId, stored) ==> Respects(profileId, c)
  {
  }

  /** At every command of DeleteProfileSettings, a rule hash is listed. */
  lemma {:induction false} DeleteKeepsNoOrphan(db: Db, profileId: string, stored: seq<string>, n: nat)
    requires Typed(db, profileId) && NoOrphan(db, profileId) && Lists(stored, Index(db, profileId))
    requires n <= |DeleteCommands(profileId, stored)|
    ensures NoOrphan(Run(db, DeleteCommands(profileId, stored)[..n]), profileId)
  {
    ListsMembers(db, profileId, stored);
    DeleteRespects(profileId, stored);
    var cs := DeleteCommands(profileId, stored)[..n];
    EffectsSound(db, profileId, cs);
    forall k | IsRuleKey(profileId, k) && Run(db, cs).Fields(k) != map[]
      ensures k in Index(Run(db, cs), profileId)
    {
      DeletePrefixEffect(profileId, stored, n, k, StatusOf(db, profileId, k));
    }
  }

  // ------------------------------------------------------------------ an add beside a replacement

  /** c takes the commands of a and of b, each in order. */
  ghost predicate Interleaves(a: seq<Cmd>, b: seq<Cmd>, c: seq<Cmd>)
    decreases |c|
  {
    if c == [] then a == [] && b == []
    else
      || (a != [] && c[0] == a[0] && Interleaves(a[1..], b, c[1..]))
      || (b != [] && c[0] == b[0] && Interleaves(a, b[1..], c[1..]))
  }

  lemma {:induction false} InterleavedMembers(a: seq<Cmd>, b: seq<Cmd>, c: seq<Cmd>)
    requires Interleaves(a, b, c)
    ensures forall x :: x in c ==> x in a || x in b
    ensures b == [] ==> c == a
    decreases |c|
  {
    if c != [] {
      if a != [] && c[0] == a[0] && Interleaves(a[1..], b, c[1..]) {
        InterleavedMembers(a[1..], b, c[1..]);
      } else {
        InterleavedMembers(a, b[1..], c[1..]);
      }
    }
  }

  /** Commands that leave a key alone may be interleaved anywhere. */
  lemma {:induction false} InterleavedEffects(profileId: string, a: seq<Cmd>, b: seq<Cmd>, c: seq<Cmd>, k: string,
                                              st: Status)
    requires Interleaves(a, b, c)
    ensures (forall x :: x in b ==> !Touches(profileId, x, k)) ==>
              Effects(profileId, c, k, st) == Effects(profileId, a, k, st)
    ensures (forall x :: x in a ==> !Touches(profileId, x, k)) ==>
              Effects(profileId, c, k, st) == Effects(profileId, b, k, st)
    decreases |c|
  {
    if c != [] {
      if a != [] && c[0] == a[0] && Interleaves(a[1..], b, c[1..]) {
        assert a[0] in a;
        InterleavedEffects(profileId, a[1..], b, c[1..], k, Effect(profileId, c[0], k, st));
      } else {
        assert b[0] in b;
        InterleavedEffects(profileId, a, b[1..], c[1..], k, Effect(profileId, c[0], k, st));
      }
    }
  }

  lemma {:induction false} AddUntouched(profileId: string, added: seq<Rule>, m: nat, k: string)
    requires !Wanted(profileId, added, k) && m <= |RulesQueue(profileId, added)|
    ensures forall c :: c in RulesQueue(profileId, added)[..m] ==> !Touches(profileId, c, k)
    ensures forall c :: c in RulesQueue(profileId, added)[m..] ==> !Touches(profileId, c, k)
  {
    UnwantedUntouched(profileId, added, k);
  }

  lemma {:induction false} UpdateUntouched(st: Settings, stored: seq<string>, k: string)
    requires IsRuleKey(st.profileId, k) && AllRuleKeys(st.profileId, stored)
    requires !Wanted(st.profileId, st.rules, k) && k !in stored
    ensures forall c :: c in UpdateCommands(st, stored) ==> !Touches(st.profileId, c, k)
  {
    SettingsWritesApart(st, k);
    UnwantedUntouched(st.profileId, st.rules, k);
    SetKeyIsNoRuleKey(st.profileId);
  }

  lemma {:induction false} UpdateEffect(st: Settings, stored: seq<string>, k: string, s: Status)
    requires IsRuleKey(st.profileId, k) && AllRuleKeys(st.profileId, stored) && s.hash.Keys <= RULE_FIELDS
    ensures Effects(st.profileId, UpdateCommands(st, stored), k, s) ==
            (match LastRule(st.profileId, st.rules, k)
             case Some(r) => Status(true, r.Hash())
             case None => if k in stored then Status(false, map[]) else s)
  {
    SettingsWritesApart(st, k);
    Untouched(st.profileId, SettingsWrites(st), k, s);
    EffectsSplit(st.profileId, SettingsWrites(st), ReplaceQueue(st.profileId, st.rules, stored), k, s);
    ReplaceEffect(st.profileId, st.rules, stored, k, s);
  }

  /** The situation of an add whose first m commands precede the update's SMEMBERS. */
  ghost predicate AddBeside(db: Db, st: Settings, added: seq<Rule>, m: nat, stored: seq<string>, merged: seq<Cmd>) {
    var p, add := st.profileId, RulesQueue(st.profileId, added);
    && Typed(db, p) && m <= |add|
    && Lists(stored, Index(Run(db, add[..m]), p))
    && Interleaves(UpdateCommands(st, stored), add[m..], merged)
    && (forall k :: Wanted(p, added, k) ==> !Wanted(p, st.rules, k) && k !in Index(db, p))
  }

  lemma {:induction false} OneAfterTheOther(a: seq<Cmd>, b: seq<Cmd>)
    ensures Interleaves(a, b, a + b)
    decreases |a| + |b|
  {
    if a != [] {
      assert (a + b)[1..] == a[1..] + b;
      OneAfterTheOther(a[1..], b);
    } else if b != [] {
      assert (a + b)[1..] == a + b[1..];
      OneAfterTheOther(a, b[1..]);
    }
  }

  lemma {:induction false} SomeListing(elems: set<string>) returns (stored: seq<string>)
    ensures Lists(stored, elems)
    decreases elems
  {
    if elems == {} {
      stored := [];
    } else {
      var x :| x in elems;
      var rest := SomeListing(elems - {x});
      stored := [x] + rest;
      assert elems == (elems - {x}) + {x};
      assert Elements(stored) == Elements(rest) + {x};
    }
  }

  /** The situation arises: rules that are fresh can be added around any update. */
  lemma {:induction false} BesideArises(db: Db, st: Settings, added: seq<Rule>, m: nat)
      returns (stored: seq<string>, merged: seq<Cmd>)
    requires Typed(db, st.profileId) && m <= |RulesQueue(st.profileId, added)|
    requires forall k :: Wanted(st.profileId, added, k) ==>
               !Wanted(st.profileId, st.rules, k) && k !in Index(db, st.profileId)
    ensures AddBeside(db, st, added, m, stored, merged)
  {
    var add := RulesQueue(st.profileId, added);
    stored := SomeListing(Index(Run(db, add[..m]), st.profileId));
    merged := UpdateCommands(st, stored) + add[m..];
    OneAfterTheOther(UpdateCommands(st, stored), add[m..]);
  }

  lemma {:induction false} BesideStatus(db: Db, st: Settings, added: seq<Rule>, m: nat, stored: seq<string>,
                                        merged: seq<Cmd>, k: string)
    requires AddBeside(db, st, added, m, stored, merged) && IsRuleKey(st.profileId, k)
    ensures var p, add := st.profileId, RulesQueue(st.profileId, added);
            var mid := Run(db, add[..m]);
            && AllRuleKeys(p, stored) && (k in stored <==> StatusOf(mid, p, k).indexed)
            && StatusOf(mid, p, k) == Effects(p, add[..m], k, StatusOf(db, p, k))
            && StatusOf(mid, p, k).hash.Keys <= RULE_FIELDS
            && Typed(Run(mid, merged), p)
            && StatusOf(Run(mid, merged), p, k) == Effects(p, merged, k, StatusOf(mid, p, k))
  {
    var p, add := st.profileId, RulesQueue(st.profileId, added);
    QueuesRespect(p, added, []);
    EffectsSound(db, p, add[..m]);
    ListsMembers(Run(db, add[..m]), p, stored);
    UpdateRespects(st, stored);
    InterleavedMembers(UpdateCommands(st, stored), add[m..], merged);
    EffectsSound(Run(db, add[..m]), p, merged);
  }

  /** Once the add's SADD is still to come, the update does not touch the added rule. */
  lemma {:induction false} AddSurvives(st: Settings, added: seq<Rule>, m: nat, stored: seq<string>, merged: seq<Cmd>,
                                       k: string, s: Status)
    requires m < |RulesQueue(st.profileId, added)| && AllRuleKeys(st.profileId, stored)
    requires Interleaves(UpdateCommands(st, stored), RulesQueue(st.profileId, added)[m..], merged)
    requires IsRuleKey(st.profileId, k) && Wanted(st.profileId, added, k) && !Wanted(st.profileId, st.rules, k)
    requires s.hash.Keys <= RULE_FIELDS && k !in stored
    ensures Effects(st.profileId, merged, k, Effects(st.profileId, RulesQueue(st.profileId, added)[..m], k, s)) ==
            Status(true, LastRule(st.profileId, added, k).value.Hash())
  {
    var p, add := st.profileId, RulesQueue(st.profileId, added);
    RulesQueueEffect(p, added, k, s);
    WantedRule(p, added, k);
    assert add == add[..m] + add[m..];
    EffectsSplit(p, add[..m], add[m..], k, s);
    UpdateUntouched(st, stored, k);
    InterleavedEffects(p, UpdateCommands(st, stored), add[m..], merged, k, Effects(p, add[..m], k, s));
  }

  /**
   * No lost add, exactly. A rule added beside an update survives it, with its hash, if and only if
   * the add's SADD had not run when the update read the set; otherwise the update removes it.
   */
  lemma {:induction false} AddSurvivesIff(db: Db, st: Settings, added: seq<Rule>, m: nat, stored: seq<string>,
                                          merged: seq<Cmd>, k: string)
    requires AddBeside(db, st, added, m, stored, merged)
    requires IsRuleKey(st.profileId, k) && Wanted(st.profileId, added, k)
    ensures StatusOf(Run(Run(db, RulesQueue(st.profileId, added)[..m]), merged), st.profileId, k) ==
            if m < |RulesQueue(st.profileId, added)|
            then Status(true, LastRule(st.profileId, added, k).value.Hash())
            else Status(false, map[])
  {
    var p, add := st.profileId, RulesQueue(st.profileId, added);
    BesideStatus(db, st, added, m, stored, merged, k);
    var s := StatusOf(db, p, k);
    if m < |add| {
      WritesKeepIndexed(p, add[..m], k, s);
      AddSurvives(st, added, m, stored, merged, k, s);
    } else {
      RulesQueueEffect(p, added, k, s);
      assert add[..m] == add;
      InterleavedMembers(UpdateCommands(st, stored), add[m..], merged);
      WantedRule(p, st.rules, k);
      UpdateEffect(st, stored, k, Effects(p, add[..m], k, s));
    }
  }

  /** With the add not yet complete at the read, the set ends as exactly the wanted and added rules. */
  lemma {:induction false} NoLostAdd(db: Db, st: Settings, added: seq<Rule>, m: nat, stored: seq<string>,
                                     merged: seq<Cmd>)
    requires AddBeside(db, st, added, m, stored, merged) && m < |RulesQueue(st.profileId, added)|
    ensures var fin := Run(Run(db, RulesQueue(st.profileId, added)[..m]), merged);
            && Index(fin, st.profileId) ==
               Elements(RuleKeys(st.profileId, st.rules)) + Elements(RuleKeys(st.profileId, added))
            && NoDangling(fin, st.profileId)
  {
    var p, add := st.profileId, RulesQueue(st.profileId, added);
    var fin := Run(Run(db, add[..m]), merged);
    forall k | IsRuleKey(p, k)
      ensures k in Index(fin, p) <==> Wanted(p, st.rules, k) || Wanted(p, added, k)
      ensures k in Index(fin, p) ==> fin.Fields(k) != map[]
    {
      NoLostAddAt(db, st, added, m, stored, merged, k);
    }
    RuleKeyIsRuleKey(p, "");
    BesideStatus(db, st, added, m, stored, merged, CustomRuleKey(p, ""));
    ListsBoth(fin, p, st.rules, added);
  }

  /** A set that lists a rule key exactly when one of two lists of rules wants it. */
  lemma {:induction false} ListsBoth(db: Db, profileId: string, a: seq<Rule>, b: seq<Rule>)
    requires Typed(db, profileId)
    requires forall k :: IsRuleKey(profileId, k) ==>
               (k in Index(db, profileId) <==> Wanted(profileId, a, k) || Wanted(profileId, b, k))
    requires forall k :: IsRuleKey(profileId, k) && k in Index(db, profileId) ==> db.Fields(k) != map[]
    ensures Index(db, profileId) == Elements(RuleKeys(profileId, a)) + Elements(RuleKeys(profileId, b))
    ensures NoDangling(db, profileId)
  {
    WantedAreRuleKeys(profileId, a);
    WantedAreRuleKeys(profileId, b);
    forall k ensures k in Index(db, profileId) <==> k in RuleKeys(profileId, a) || k in RuleKeys(profileId, b) {
      assert k in RuleKeys(profileId, a) ==> Wanted(profileId, a, k);
      assert k in RuleKeys(profileId, b) ==> Wanted(profileId, b, k);
    }
  }

  lemma {:induction false} WantedAreRuleKeys(profileId: string, rules: seq<Rule>)
    ensures forall k :: Wanted(profileId, rules, k) ==> IsRuleKey(profileId, k)
  {
    forall i | 0 <= i < |rules| ensures IsRuleKey(profileId, RuleKeys(profileId, rules)[i]) {
      RuleKeyIsRuleKey(profileId, rules[i].id);
    }
  }

  lemma {:induction false} NoLostAddAt(db: Db, st: Settings, added: seq<Rule>, m: nat, stored: seq<string>,
                                       merged: seq<Cmd>, k: string)
    requires AddBeside(db, st, added, m, stored, merged) && m < |RulesQueue(st.profileId, added)|
    requires IsRuleKey(st.profileId, k)
    ensures var s := StatusOf(Run(Run(db, RulesQueue(st.profileId, added)[..m]), merged), st.profileId, k);
            && (s.indexed <==> Wanted(st.profileId, st.rules, k) || Wanted(st.profileId, added, k))
            && (s.indexed ==> s.hash != map[])
  {
    var p, add := st.profileId, RulesQueue(st.profileId, added);
    if Wanted(p, added, k) {
      AddSurvivesIff(db, st, added, m, stored, merged, k);
    } else {
      BesideStatus(db, st, added, m, stored, merged, k);
      AddUntouched(p, added, m, k);
      var mid := StatusOf(Run(db, add[..m]), p, k);
      InterleavedEffects(p, UpdateCommands(st, stored), add[m..], merged, k, mid);
      WantedRule(p, st.rules, k);
      UpdateEffect(st, stored, k, mid);
    }
  }
}
