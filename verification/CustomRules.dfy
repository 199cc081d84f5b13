/**
 * A profile's custom rules in Redis, one rule key at a time.
 *
 * The status of a rule key is whether the profile's set lists it, and the fields of its hash. What
 * a command does to the status of one key depends on that status alone, so pipelines, their
 * prefixes and their interleavings are folds over statuses.
 */
module CustomRules {
  import opened Wrappers
  import opened Text
  import opened Redis
  import opened Keys
  import opened ProfileSettings

  datatype Status = Status(indexed: bool, hash: map<string, string>)

  predicate IsRuleKey(profileId: string, k: string) {
    HasPrefix(k, CustomRuleKey(profileId, ""))
  }

  function Index(db: Db, profileId: string): set<string> {
    db.Elems(CustomRulesSetKey(profileId))
  }

  function StatusOf(db: Db, profileId: string, k: string): Status {
    Status(k in Index(db, profileId), db.Fields(k))
  }

  /**
   * The rule keys hold values of the right kind. Nothing is said about agreement: set members may
   * have no hash and hashes may be unlisted, as earlier failures leave them.
   */
  ghost predicate Typed(db: Db, profileId: string) {
    && db.Peek(CustomRulesSetKey(profileId)) == OfSet(Index(db, profileId))
    && (forall k :: k in Index(db, profileId) ==> IsRuleKey(profileId, k))
    && (forall k :: IsRuleKey(profileId, k) ==>
          db.Peek(k) == OfHash(db.Fields(k)) && db.Fields(k).Keys <= RULE_FIELDS)
  }

  /** Commands that respect the layout of the profile's rules. */
  predicate Respects(profileId: string, c: Cmd) {
    var index := CustomRulesSetKey(profileId);
    match c
    case HSet(k, fs) => fs != map[] && k != index && (IsRuleKey(profileId, k) ==> fs.Keys <= RULE_FIELDS)
    case SAdd(k, vs) =>
      vs != [] && !IsRuleKey(profileId, k) && (k == index ==> forall v :: v in vs ==> IsRuleKey(profileId, v))
    case SRem(k, vs) => vs != [] && !IsRuleKey(profileId, k)
    case Del(ks) => ks != []
    case _ => c.key != index && !IsRuleKey(profileId, c.key)
  }

  predicate Touches(profileId: string, c: Cmd, k: string) {
    var index := CustomRulesSetKey(profileId);
    match c
    case HSet(h, _) => h == k
    case SAdd(s, vs) => s == index && k in vs
    case SRem(s, vs) => s == index && k in vs
    case Del(ks) => k in ks || index in ks
    case _ => false
  }

  /** What one command does to the status of rule key k. */
  function Effect(profileId: string, c: Cmd, k: string, st: Status): Status {
    if !Touches(profileId, c, k) then st
    else match c
      case HSet(_, fs) => st.(hash := st.hash + fs)
      case SAdd(_, _) => st.(indexed := true)
      case SRem(_, _) => st.(indexed := false)
      case Del(ks) =>
        Status(st.indexed && CustomRulesSetKey(profileId) !in ks, if k in ks then map[] else st.hash)
      case _ => st
  }

  function Effects(profileId: string, cs: seq<Cmd>, k: string, st: Status): Status
    decreases |cs|
  {
    if cs == [] then st else Effects(profileId, cs[1..], k, Effect(profileId, cs[0], k, st))
  }

  lemma {:induction false} SetKeyIsNoRuleKey(profileId: string)
    ensures !IsRuleKey(profileId, CustomRulesSetKey(profileId))
  {
    var k := CustomRulesSetKey(profileId);
    if IsRuleKey(profileId, k) {
      var n := |CustomRuleKey(profileId, "")|;
      assert k == CustomRuleKey(profileId, "") + k[n..] == CustomRuleKey(profileId, k[n..]);
      RuleKeysSeparate(profileId, k[n..], "");
    }
  }

  /** A name that is neither the set's nor a rule's gives a key outside the rules. */
  predicate Outside(name: string) {
    name != "custom_rules" && !HasPrefix(name, "custom_rule:")
  }

  lemma {:induction false} OutsideRules(profileId: string, name: string)
    requires Outside(name)
    ensures SettingsKey(profileId, name) != CustomRulesSetKey(profileId)
    ensures !IsRuleKey(profileId, SettingsKey(profileId, name))
  {
    SettingsNamesInjective(profileId, name, "custom_rules");
    RulePrefix(profileId, name, "custom_rule:");
    assert "custom_rule:" + "" == "custom_rule:";
  }

  lemma {:induction false} RulePrefix(profileId: string, name: string, infix: string)
    ensures HasPrefix(SettingsKey(profileId, name), SettingsKey(profileId, infix)) ==> HasPrefix(name, infix)
  {
    var n := |SettingsPrefix(profileId)|;
    var k, p := SettingsKey(profileId, name), SettingsKey(profileId, infix);
    assert k[n..] == name && p[n..] == infix;
    if HasPrefix(k, p) {
      assert k[..|p|][n..] == name[..|infix|];
    }
  }

  lemma {:induction false} RuleKeyIsRuleKey(profileId: string, ruleId: string)
    ensures IsRuleKey(profileId, CustomRuleKey(profileId, ruleId))
  {
    assert CustomRuleKey(profileId, ruleId) == CustomRuleKey(profileId, "") + ruleId;
  }

  lemma {:induction false} IndexAfter(db: Db, profileId: string, c: Cmd)
    requires Typed(db, profileId) && Respects(profileId, c)
    ensures var db' := Apply(db, c);
            && db'.Peek(CustomRulesSetKey(profileId)) == OfSet(Index(db', profileId))
            && (forall k :: IsRuleKey(profileId, k) ==>
                  (k in Index(db', profileId) <==> Effect(profileId, c, k, StatusOf(db, profileId, k)).indexed))
            && (forall k :: k in Index(db', profileId) ==> IsRuleKey(profileId, k))
  {
    SetKeyIsNoRuleKey(profileId);
    var key := CustomRulesSetKey(profileId);
    if key !in Written(c) {
      Frame(db, c, key);
    } else if c.SAdd? {
      assert c.values[0] in Elements(c.values);
    }
  }

  lemma {:induction false} HashAfter(db: Db, profileId: string, c: Cmd, k: string)
    requires Typed(db, profileId) && Respects(profileId, c) && IsRuleKey(profileId, k)
    ensures var db' := Apply(db, c);
            && db'.Peek(k) == OfHash(db'.Fields(k)) && db'.Fields(k).Keys <= RULE_FIELDS
            && db'.Fields(k) == Effect(profileId, c, k, StatusOf(db, profileId, k)).hash
  {
    SetKeyIsNoRuleKey(profileId);
    if k !in Written(c) {
      Frame(db, c, k);
    }
  }

  /** The store and the statuses agree on every command that respects the layout. */
  lemma {:induction false} EffectSound(db: Db, profileId: string, c: Cmd)
    requires Typed(db, profileId) && Respects(profileId, c)
    ensures Typed(Apply(db, c), profileId)
    ensures forall k :: IsRuleKey(profileId, k) ==>
              StatusOf(Apply(db, c), profileId, k) == Effect(profileId, c, k, StatusOf(db, profileId, k))
  {
    IndexAfter(db, profileId, c);
    forall k | IsRuleKey(profileId, k)
      ensures var db' := Apply(db, c);
              && db'.Peek(k) == OfHash(db'.Fields(k)) && db'.Fields(k).Keys <= RULE_FIELDS
              && StatusOf(db', profileId, k) == Effect(profileId, c, k, StatusOf(db, profileId, k))
    {
      HashAfter(db, profileId, c, k);
    }
  }

  lemma {:induction false} EffectsSound(db: Db, profileId: string, cs: seq<Cmd>)
    requires Typed(db, profileId) && forall c :: c in cs ==> Respects(profileId, c)
    ensures Typed(Run(db, cs), profileId)
    ensures forall k :: IsRuleKey(profileId, k) ==>
              StatusOf(Run(db, cs), profileId, k) == Effects(profileId, cs, k, StatusOf(db, profileId, k))
    decreases |cs|
  {
    if cs != [] {
      EffectSound(db, profileId, cs[0]);
      EffectsSound(Apply(db, cs[0]), profileId, cs[1..]);
    }
  }

  lemma {:induction false} EffectsSplit(profileId: string, a: seq<Cmd>, b: seq<Cmd>, k: string, st: Status)
    ensures Effects(profileId, a + b, k, st) == Effects(profileId, b, k, Effects(profileId, a, k, st))
    decreases |a|
  {
    if a == [] {
      assert a + b == b;
    } else {
      assert (a + b)[1..] == a[1..] + b;
      EffectsSplit(profileId, a[1..], b, k, Effect(profileId, a[0], k, st));
    }
  }

  lemma {:induction false} Untouched(profileId: string, cs: seq<Cmd>, k: string, st: Status)
    requires forall c :: c in cs ==> !Touches(profileId, c, k)
    ensures Effects(profileId, cs, k, st) == st
    decreases |cs|
  {
    if cs != [] {
      Untouched(profileId, cs[1..], k, st);
    }
  }

  // ------------------------------------------------------------------ what the queues do to a key

  /** The rule that a list of rules leaves under key k: the last one with that key. */
  function LastRule(profileId: string, rules: seq<Rule>, k: string): (r: Option<Rule>)
    ensures r.Some? <==> k in RuleKeys(profileId, rules)
    ensures r.Some? ==> r.value in rules && CustomRuleKey(profileId, r.value.id) == k
  {
    if rules == [] then None
    else
      var n := |rules| - 1;
      assert RuleKeys(profileId, rules) == RuleKeys(profileId, rules[..n]) + [CustomRuleKey(profileId, rules[n].id)];
      if CustomRuleKey(profileId, rules[n].id) == k then Some(rules[n])
      else LastRule(profileId, rules[..n], k)
  }

  /** HSET merges, but every rule writes the same fields. */
  lemma {:induction false} HashOverwrites(m: map<string, string>, r: Rule)
    requires m.Keys <= RULE_FIELDS
    ensures m + r.Hash() == r.Hash() && r.Hash().Keys == RULE_FIELDS
  {
  }

  lemma {:induction false} RuleWriteEffect(profileId: string, r: Rule, k: string, st: Status)
    requires st.hash.Keys <= RULE_FIELDS
    ensures Effects(profileId, [HSet(CustomRuleKey(profileId, r.id), r.Hash())], k, st) ==
            (if CustomRuleKey(profileId, r.id) == k then st.(hash := r.Hash()) else st)
  {
    HashOverwrites(st.hash, r);
    var c := HSet(CustomRuleKey(profileId, r.id), r.Hash());
    assert Effects(profileId, [c], k, st) == Effect(profileId, c, k, st);
  }

  lemma {:induction false} RuleWritesEffect(profileId: string, rules: seq<Rule>, k: string, st: Status)
    requires st.hash.Keys <= RULE_FIELDS
    ensures Effects(profileId, RuleWrites(profileId, rules), k, st) ==
            (match LastRule(profileId, rules, k) case None => st case Some(r) => st.(hash := r.Hash()))
    ensures Effects(profileId, RuleWrites(profileId, rules), k, st).hash.Keys <= RULE_FIELDS
    decreases |rules|
  {
    if rules != [] {
      var n := |rules| - 1;
      var front := RuleWrites(profileId, rules[..n]);
      var last := [HSet(CustomRuleKey(profileId, rules[n].id), rules[n].Hash())];
      assert RuleWrites(profileId, rules) == front + last;
      EffectsSplit(profileId, front, last, k, st);
      RuleWritesEffect(profileId, rules[..n], k, st);
      HashOverwrites(map[], rules[n]);
      RuleWriteEffect(profileId, rules[n], k, Effects(profileId, front, k, st));
    }
  }

  lemma {:induction false} RulesQueueEffect(profileId: string, rules: seq<Rule>, k: string, st: Status)
    requires st.hash.Keys <= RULE_FIELDS
    ensures Effects(profileId, RulesQueue(profileId, rules), k, st) ==
            (match LastRule(profileId, rules, k) case None => st case Some(r) => Status(true, r.Hash()))
  {
    if rules != [] {
      RuleWritesEffect(profileId, rules, k, st);
      EffectsSplit(profileId, RuleWrites(profileId, rules),
                   [SAdd(CustomRulesSetKey(profileId), RuleKeys(profileId, rules))], k, st);
    }
  }

  ghost predicate AllRuleKeys(profileId: string, stored: seq<string>) {
    forall k :: k in stored ==> IsRuleKey(profileId, k)
  }

  lemma {:induction false} StaleEffect(profileId: string, stale: seq<string>, k: string, st: Status)
    requires AllRuleKeys(profileId, stale)
    ensures Effects(profileId, StaleQueue(profileId, stale), k, st) ==
            (if k in stale then Status(false, map[]) else st)
  {
    SetKeyIsNoRuleKey(profileId);
    if stale != [] {
      var a, b := SRem(CustomRulesSetKey(profileId), stale), Del(stale);
      assert StaleQueue(profileId, stale)[1..] == [b];
      assert Effects(profileId, [b], k, Effect(profileId, a, k, st)) ==
             Effect(profileId, b, k, Effect(profileId, a, k, st));
    }
  }

  /** A completed replacement: the last rule under its key, nothing under a stale key. */
  lemma {:induction false} ReplaceEffect(profileId: string, rules: seq<Rule>, stored: seq<string>, k: string,
                                         st: Status)
    requires st.hash.Keys <= RULE_FIELDS && AllRuleKeys(profileId, stored)
    ensures Effects(profileId, ReplaceQueue(profileId, rules, stored), k, st) ==
            (match LastRule(profileId, rules, k)
             case Some(r) => Status(true, r.Hash())
             case None => if k in stored then Status(false, map[]) else st)
  {
    var stale := Stale(stored, Elements(RuleKeys(profileId, rules)));
    RulesQueueEffect(profileId, rules, k, st);
    EffectsSplit(profileId, RulesQueue(profileId, rules), StaleQueue(profileId, stale), k, st);
    SetKeyIsNoRuleKey(profileId);
    StaleEffect(profileId, stale, k, Effects(profileId, RulesQueue(profileId, rules), k, st));
  }

  lemma {:induction false} QueuesRespect(profileId: string, rules: seq<Rule>, stored: seq<string>)
    requires AllRuleKeys(profileId, stored)
    ensures forall c :: c in RulesQueue(profileId, rules) ==> Respects(profileId, c)
    ensures forall c :: c in ReplaceQueue(profileId, rules, stored) ==> Respects(profileId, c)
  {
    SetKeyIsNoRuleKey(profileId);
    forall i | 0 <= i < |rules|
      ensures IsRuleKey(profileId, CustomRuleKey(profileId, rules[i].id))
      ensures CustomRuleKey(profileId, rules[i].id) != CustomRulesSetKey(profileId)
    {
      RuleKeyIsRuleKey(profileId, rules[i].id);
      RuleKeysSeparate(profileId, rules[i].id, "");
    }
  }
}
