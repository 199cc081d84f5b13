/** When the deletion of a profile leaves nothing of it behind. */
module ProfileDeletion {
  import opened Wrappers
  import opened Text
  import opened Redis
  import opened Keys
  import opened ProfileSettings
  import opened CustomRules
  import opened RuleConcurrency
  import opened BreakingOff
  import opened SettingsMirror
  import opened MirrorHistory

  /** No key of the profile has a name that the layout does not know. */
  ghost predicate NoForeignNames(db: Db, p: string) {
    forall name :: Outside(name) && name !in SETTINGS_NAMES ==> SettingsKey(p, name) !in db.keys
  }

  /** No key with the profile's prefix is left. */
  ghost predicate Gone(db: Db, p: string) {
    forall name :: SettingsKey(p, name) !in db.keys
  }

  lemma {:induction false} PrefixIsName(p: string, k: string) returns (name: string)
    requires HasPrefix(k, SettingsPrefix(p))
    ensures k == SettingsKey(p, name)
  {
    name := k[|SettingsPrefix(p)|..];
  }

  lemma {:induction false} NameOfRule(p: string, name: string)
    ensures IsRuleKey(p, SettingsKey(p, name)) <==> HasPrefix(name, "custom_rule:")
  {
    RulePrefix(p, name, "custom_rule:");
    assert "custom_rule:" + "" == "custom_rule:";
    if HasPrefix(name, "custom_rule:") {
      var id := name[|"custom_rule:"|..];
      assert name == "custom_rule:" + id;
      RuleKeyIsRuleKey(p, id);
    }
  }

  /** A rule key is stored exactly when it has a hash. */
  lemma {:induction false} RuleStored(db: Db, p: string, k: string)
    requires Typed(db, p) && IsRuleKey(p, k)
    ensures k in db.keys <==> db.Fields(k) != map[]
  {
    assert db.Peek(k) == OfHash(db.Fields(k));
  }

  /** What deletion leaves of the key with a given name. */
  lemma {:induction false} NameAfterDelete(db: Db, p: string, stored: seq<string>, name: string)
    requires Typed(db, p) && Lists(stored, Index(db, p))
    ensures SettingsKey(p, name) in Run(db, DeleteCommands(p, stored)).keys <==>
            && SettingsKey(p, name) in db.keys
            && if HasPrefix(name, "custom_rule:") then SettingsKey(p, name) !in Index(db, p)
               else Outside(name) && name !in SETTINGS_NAMES
  {
    var k := SettingsKey(p, name);
    ListsMembers(db, p, stored);
    DeleteEffect(db, p, stored, k);
    FixedKeyNames(p, name);
    NameOfRule(p, name);
    SettingsNamesInjective(p, name, "custom_rules");
    if name in SETTINGS_NAMES {
      SettingsNamesOutside(name);
    }
  }

  /**
   * DeleteProfileSettings leaves nothing of the profile exactly when no rule hash is unlisted and
   * no key has a name foreign to the layout; other keys stay in any case.
   */
  lemma {:induction false} DeleteCompleteIff(db: Db, p: string, stored: seq<string>)
    requires Typed(db, p) && Lists(stored, Index(db, p))
    ensures Gone(Run(db, DeleteCommands(p, stored)), p) <==> NoOrphan(db, p) && NoForeignNames(db, p)
    ensures forall k :: !HasPrefix(k, SettingsPrefix(p)) ==>
              Run(db, DeleteCommands(p, stored)).Peek(k) == db.Peek(k)
  {
    var db' := Run(db, DeleteCommands(p, stored));
    forall name
      ensures SettingsKey(p, name) in db'.keys <==>
              && SettingsKey(p, name) in db.keys
              && if HasPrefix(name, "custom_rule:") then SettingsKey(p, name) !in Index(db, p)
                 else Outside(name) && name !in SETTINGS_NAMES
    {
      NameAfterDelete(db, p, stored, name);
    }
    OrphanNames(db, p);
    ListsMembers(db, p, stored);
    OwnKeys(p);
    forall k | !HasPrefix(k, SettingsPrefix(p)) ensures db'.Peek(k) == db.Peek(k) {
      DeleteEffect(db, p, stored, k);
    }
  }

  /** Orphans by name. */
  lemma {:induction false} OrphanNames(db: Db, p: string)
    requires Typed(db, p)
    ensures NoOrphan(db, p) <==> forall name :: HasPrefix(name, "custom_rule:") && SettingsKey(p, name) in db.keys ==>
              SettingsKey(p, name) in Index(db, p)
  {
    forall name | HasPrefix(name, "custom_rule:")
      ensures IsRuleKey(p, SettingsKey(p, name))
      ensures SettingsKey(p, name) in db.keys <==> db.Fields(SettingsKey(p, name)) != map[]
    {
      NameOfRule(p, name);
      RuleStored(db, p, SettingsKey(p, name));
    }
    forall k | IsRuleKey(p, k) ensures exists name :: k == SettingsKey(p, name) && HasPrefix(name, "custom_rule:") {
      var name := RuleKeyIsSettingsKey(p, k);
      NameOfRule(p, name);
    }
  }

  // ------------------------------------------------------------------ after histories

  lemma {:induction false} EncodedIsDeletable(db: Db, p: string, im: Image)
    requires Encodes(db, p, im)
    ensures NoDangling(db, p) && NoOrphan(db, p) && NoForeignNames(db, p)
  {
    forall k | IsRuleKey(p, k) ensures k in Index(db, p) <==> db.Fields(k) != map[] {
      AgreeAt(db, p, im.rules, k);
    }
    forall name | Outside(name) && name !in SETTINGS_NAMES ensures SettingsKey(p, name) !in db.keys {
      assert db.Peek(SettingsKey(p, name)) == None;
    }
  }

  /** After any history, deletion leaves no key of the profile and touches nothing else. */
  lemma {:induction false} DeleteIsCompleteAndLocal(db: Db, ops: seq<Op>, p: string, stored: seq<string>)
    requires forall k :: k in db.keys ==> !HasPrefix(k, "settings:")
    requires AllReady(db, ops) && Ready(RunAll(db, ops), DeleteProfile(p, stored))
    ensures var before := RunAll(db, ops);
            var after := Run(before, DeleteCommands(p, stored));
            && (forall k :: k in after.keys ==> !HasPrefix(k, SettingsPrefix(p)))
            && (forall k :: !HasPrefix(k, SettingsPrefix(p)) ==> after.Peek(k) == before.Peek(k))
  {
    NoSettingsMirrorsNothing(db);
    HistoryMirrors(db, map[], ops);
    var before := RunAll(db, ops);
    EncodedIsDeletable(before, p, ImageOf(AfterAll(map[], ops), p));
    DeleteCompleteIff(before, p, stored);
    forall k | HasPrefix(k, SettingsPrefix(p)) ensures k !in Run(before, DeleteCommands(p, stored)).keys {
      var name := PrefixIsName(p, k);
    }
  }

  // ------------------------------------------------------------------ after a pipeline that broke off

  lemma {:induction false} ListedById(db: Db, p: string, rules: map<string, Rule>)
    requires RulesEncode(db, p, rules)
    ensures forall id :: CustomRuleKey(p, id) in Index(db, p) <==> id in rules
    ensures forall id :: id in rules ==> db.Fields(CustomRuleKey(p, id)) != map[]
  {
    forall id
      ensures CustomRuleKey(p, id) in Index(db, p) <==> id in rules
      ensures id in rules ==> db.Fields(CustomRuleKey(p, id)) != map[]
    {
      assert StatusOf(db, p, CustomRuleKey(p, id)) == RuleStatus(rules, id);
      if id in rules {
        HashOverwrites(map[], rules[id]);
      }
    }
  }

  lemma {:induction false} OutsideStays(db: Db, cs: seq<Cmd>, p: string)
    requires forall c, k :: c in cs && k in Written(c) ==> IsRuleKey(p, k) || k == CustomRulesSetKey(p)
    requires NoForeignNames(db, p)
    ensures NoForeignNames(Run(db, cs), p)
  {
    forall name | Outside(name) && name !in SETTINGS_NAMES ensures SettingsKey(p, name) !in Run(db, cs).keys {
      OutsideRules(p, name);
      RunFrame(db, cs, SettingsKey(p, name));
      assert db.Peek(SettingsKey(p, name)) == None;
    }
  }

  lemma {:induction false} RulesQueueWrites(p: string, rules: seq<Rule>)
    ensures forall c, k :: c in RulesQueue(p, rules) && k in Written(c) ==> IsRuleKey(p, k) || k == CustomRulesSetKey(p)
  {
    forall i | 0 <= i < |rules| ensures IsRuleKey(p, CustomRuleKey(p, rules[i].id)) {
      RuleKeyIsRuleKey(p, rules[i].id);
    }
  }

  lemma {:induction false} BrokenAdd(db: Db, p: string, rules: seq<Rule>, n: nat)
    requires Typed(db, p) && NoForeignNames(db, p) && n <= |RulesQueue(p, rules)|
    ensures Typed(Run(db, RulesQueue(p, rules)[..n]), p) && NoForeignNames(Run(db, RulesQueue(p, rules)[..n]), p)
  {
    QueuesRespect(p, rules, []);
    EffectsSound(db, p, RulesQueue(p, rules)[..n]);
    RulesQueueWrites(p, rules);
    OutsideStays(db, RulesQueue(p, rules)[..n], p);
  }

  /**
   * A profile whose add broke off after n commands can be deleted completely exactly when the
   * SADD had run or all the rules written were there before: each new rule written leaks.
   */
  lemma {:induction false} BrokenAddLeaksIff(db: Db, p: string, rules: seq<Rule>, im: Image, n: nat,
                                             stored: seq<string>)
    requires Encodes(db, p, im) && n <= |RulesQueue(p, rules)|
    requires Lists(stored, Index(Run(db, RulesQueue(p, rules)[..n]), p))
    ensures Gone(Run(Run(db, RulesQueue(p, rules)[..n]), DeleteCommands(p, stored)), p)
            <==> n > |rules| || forall i :: 0 <= i < n ==> rules[i].id in im.rules
  {
    EncodedIsDeletable(db, p, im);
    BrokenAdd(db, p, rules, n);
    DeleteCompleteIff(Run(db, RulesQueue(p, rules)[..n]), p, stored);
    AddOrphansIff(db, p, rules, n);
    ListedById(db, p, im.rules);
  }

  lemma {:induction false} UpdateSparesForeign(st: Settings, stored: seq<string>, name: string, c: Cmd)
    requires AllRuleKeys(st.profileId, stored) && c in UpdateCommands(st, stored)
    requires Outside(name) && name !in SETTINGS_NAMES
    ensures SettingsKey(st.profileId, name) !in Written(c)
  {
    var p := st.profileId;
    OutsideRules(p, name);
    if c in SettingsWrites(st) {
      var other := SettingsWritesPlain(st, c);
      SettingsNamesInjective(p, name, other);
    } else if c in RulesQueue(p, st.rules) {
      RulesQueueWrites(p, st.rules);
    } else {
      var stale := Stale(stored, Elements(RuleKeys(p, st.rules)));
      assert c == SRem(CustomRulesSetKey(p), stale) || c == Del(stale);
    }
  }

  lemma {:induction false} UpdateStays(db: Db, st: Settings, stored: seq<string>, n: nat)
    requires AllRuleKeys(st.profileId, stored) && n <= |UpdateCommands(st, stored)| && NoForeignNames(db, st.profileId)
    ensures NoForeignNames(Run(db, UpdateCommands(st, stored)[..n]), st.profileId)
  {
    var p, cs := st.profileId, UpdateCommands(st, stored)[..n];
    forall name | Outside(name) && name !in SETTINGS_NAMES ensures SettingsKey(p, name) !in Run(db, cs).keys {
      forall c | c in cs ensures SettingsKey(p, name) !in Written(c) {
        UpdateSparesForeign(st, stored, name, c);
      }
      RunFrame(db, cs, SettingsKey(p, name));
      assert db.Peek(SettingsKey(p, name)) == None;
    }
  }

  /** The same for an update: its two windows are the ones of UpdateOrphansIff. */
  lemma {:induction false} BrokenUpdateLeaksIff(db: Db, st: Settings, im: Image, stored: seq<string>, n: nat,
                                                listed: seq<string>)
    requires Encodes(db, st.profileId, im) && Lists(stored, Index(db, st.profileId))
    requires n <= |UpdateCommands(st, stored)|
    requires Lists(listed, Index(Run(db, UpdateCommands(st, stored)[..n]), st.profileId))
    ensures Gone(Run(Run(db, UpdateCommands(st, stored)[..n]), DeleteCommands(st.profileId, listed)), st.profileId)
            <==> && (RulePart(st, n) <= |st.rules| ==>
                       forall i :: 0 <= i < RulePart(st, n) ==> st.rules[i].id in im.rules)
                 && (RulePart(st, n) == |RulesQueue(st.profileId, st.rules)| + 1 ==>
                       forall id :: id in im.rules ==> Wanted(st.profileId, st.rules, CustomRuleKey(st.profileId, id)))
  {
    var p, cs := st.profileId, UpdateCommands(st, stored)[..n];
    EncodedIsDeletable(db, p, im);
    ListsMembers(db, p, stored);
    UpdateRespects(st, stored);
    EffectsSound(db, p, cs);
    UpdateStays(db, st, stored, n);
    DeleteCompleteIff(Run(db, cs), p, listed);
    UpdateOrphansIff(db, st, stored, n);
    ListedById(db, p, im.rules);
    StaleByName(db, p, st.rules, stored, im.rules);
  }

  lemma {:induction false} StaleByName(db: Db, p: string, rules: seq<Rule>, stored: seq<string>,
                                       mirrored: map<string, Rule>)
    requires AllRuleKeys(p, stored)
    requires forall id :: CustomRuleKey(p, id) in stored <==> id in mirrored
    requires forall id :: id in mirrored ==> db.Fields(CustomRuleKey(p, id)) != map[]
    ensures StaleBare(db, p, rules, stored) <==> forall id :: id in mirrored ==> Wanted(p, rules, CustomRuleKey(p, id))
  {
    if StaleBare(db, p, rules, stored) {
      forall id | id in mirrored ensures Wanted(p, rules, CustomRuleKey(p, id)) {
        assert CustomRuleKey(p, id) in stored;
      }
    } else {
      var k :| k in stored && !Wanted(p, rules, k) && db.Fields(k) != map[];
      var id := k[|CustomRuleKey(p, "")|..];
      assert k == CustomRuleKey(p, "") + id == CustomRuleKey(p, id);
    }
  }
}
