/**
 * Pipelines that break off, exactly. Updates and adds never leave a listed rule without its hash,
 * and removals and deletions never leave a rule hash unlisted; for each the lemmas here say after
 * which commands, and in which states, the other half of the agreement holds as well.
 */
module BreakingOff {
  import opened Redis
  import opened Keys
  import opened ProfileSettings
  import opened CustomRules
  import opened RuleConcurrency

  /** Are the first n rules all listed already? */
  ghost predicate WrittenListed(db: Db, profileId: string, rules: seq<Rule>, n: nat)
    requires n <= |rules|
  {
    forall i :: 0 <= i < n ==> CustomRuleKey(profileId, rules[i].id) in Index(db, profileId)
  }

  /** A removal leaves a listed rule without its hash exactly between its two commands, for a listed rule. */
  lemma {:induction false} RemovalDanglesIff(db: Db, profileId: string, ruleId: string, n: nat)
    requires Typed(db, profileId) && NoDangling(db, profileId) && n <= 2
    ensures NoDangling(Run(db, RemoveRuleCommands(profileId, ruleId)[..n]), profileId)
            <==> n != 1 || CustomRuleKey(profileId, ruleId) !in Index(db, profileId)
  {
    var key, cs := CustomRuleKey(profileId, ruleId), RemoveRuleCommands(profileId, ruleId)[..n];
    SetKeyIsNoRuleKey(profileId);
    RuleKeyIsRuleKey(profileId, ruleId);
    EffectsSound(db, profileId, cs);
    forall k | IsRuleKey(profileId, k)
      ensures StatusOf(Run(db, cs), profileId, k) ==
              if k != key || n == 0 then StatusOf(db, profileId, k)
              else Status(k in Index(db, profileId) && n == 1, map[])
    {
      RemoveEffect(profileId, ruleId, n, k, StatusOf(db, profileId, k));
    }
    assert StatusOf(Run(db, cs), profileId, key).indexed <==> key in Index(Run(db, cs), profileId);
  }

  // ------------------------------------------------------------------ adds

  lemma {:induction false} AddPrefix(profileId: string, rules: seq<Rule>, n: nat)
    requires n <= |RulesQueue(profileId, rules)|
    ensures n <= |rules| ==> RulesQueue(profileId, rules)[..n] == RuleWrites(profileId, rules[..n])
    ensures n > |rules| ==> RulesQueue(profileId, rules)[..n] == RulesQueue(profileId, rules)
  {
  }

  lemma {:induction false} WantedPrefix(profileId: string, rules: seq<Rule>, n: nat, k: string)
    requires n <= |rules|
    ensures LastRule(profileId, rules[..n], k).Some? <==>
              exists i :: 0 <= i < n && CustomRuleKey(profileId, rules[i].id) == k
  {
    var keys := RuleKeys(profileId, rules[..n]);
    assert forall i :: 0 <= i < n ==> keys[i] == CustomRuleKey(profileId, rules[i].id);
  }

  /** One key after n commands of an add: an orphan if it was one, or was written while unlisted. */
  lemma {:induction false} AddOrphanAt(profileId: string, rules: seq<Rule>, n: nat, k: string, st: Status)
    requires n <= |RulesQueue(profileId, rules)| && st.hash.Keys <= RULE_FIELDS && (st.hash != map[] ==> st.indexed)
    ensures var st' := Effects(profileId, RulesQueue(profileId, rules)[..n], k, st);
            st'.hash != map[] && !st'.indexed
            <==> n <= |rules| && !st.indexed && exists i :: 0 <= i < n && CustomRuleKey(profileId, rules[i].id) == k
  {
    AddPrefix(profileId, rules, n);
    if n <= |rules| {
      RuleWritesEffect(profileId, rules[..n], k, st);
      WantedPrefix(profileId, rules, n, k);
    } else {
      RulesQueueEffect(profileId, rules, k, st);
    }
    if n <= |rules| && LastRule(profileId, rules[..n], k).Some? {
      HashOverwrites(map[], LastRule(profileId, rules[..n], k).value);
    }
  }

  /** An add leaves an unlisted hash exactly when it breaks off before its SADD, a new rule being written. */
  lemma {:induction false} AddOrphansIff(db: Db, profileId: string, rules: seq<Rule>, n: nat)
    requires Typed(db, profileId) && NoOrphan(db, profileId) && n <= |RulesQueue(profileId, rules)|
    ensures NoOrphan(Run(db, RulesQueue(profileId, rules)[..n]), profileId)
            <==> n > |rules| || WrittenListed(db, profileId, rules, n)
  {
    var cs := RulesQueue(profileId, rules)[..n];
    QueuesRespect(profileId, rules, []);
    EffectsSound(db, profileId, cs);
    forall k | IsRuleKey(profileId, k)
      ensures var st' := StatusOf(Run(db, cs), profileId, k);
              st'.hash != map[] && !st'.indexed
              <==> n <= |rules| && k !in Index(db, profileId)
                   && exists i :: 0 <= i < n && CustomRuleKey(profileId, rules[i].id) == k
    {
      AddOrphanAt(profileId, rules, n, k, StatusOf(db, profileId, k));
    }
    if n <= |rules| {
      forall i | 0 <= i < n ensures IsRuleKey(profileId, CustomRuleKey(profileId, rules[i].id)) {
        RuleKeyIsRuleKey(profileId, rules[i].id);
      }
    }
    OrphansAreStatuses(Run(db, cs), profileId);
  }

  lemma {:induction false} OrphansAreStatuses(db: Db, profileId: string)
    ensures NoOrphan(db, profileId) <==> forall k :: IsRuleKey(profileId, k) ==>
              var st := StatusOf(db, profileId, k); st.hash != map[] ==> st.indexed
  {
  }

  // ------------------------------------------------------------------ deletions

  /** A deletion leaves listed rules without hashes from its second command until its last, if it lists any. */
  lemma {:induction false} DeletionDanglesIff(db: Db, profileId: string, stored: seq<string>, n: nat)
    requires Typed(db, profileId) && NoDangling(db, profileId) && Lists(stored, Index(db, profileId))
    requires n <= |DeleteCommands(profileId, stored)|
    ensures NoDangling(Run(db, DeleteCommands(profileId, stored)[..n]), profileId)
            <==> stored == [] || n <= 1 || n == |stored| + 2
  {
    ListsMembers(db, profileId, stored);
    DeleteRespects(profileId, stored);
    var cs := DeleteCommands(profileId, stored)[..n];
    EffectsSound(db, profileId, cs);
    forall k | IsRuleKey(profileId, k)
      ensures StatusOf(Run(db, cs), profileId, k) ==
              Status(k in Index(db, profileId) && n < |stored| + 2,
                     if k in stored[..Deleted(stored, n)] then map[] else db.Fields(k))
    {
      DeletePrefixEffect(profileId, stored, n, k, StatusOf(db, profileId, k));
    }
    if stored != [] && 1 < n < |stored| + 2 {
      var k := stored[0];
      assert k in stored && k in stored[..Deleted(stored, n)];
      assert StatusOf(Run(db, cs), profileId, k) == Status(true, map[]);
    }
  }

  // ------------------------------------------------------------------ updates

  /** Are the stale keys all without a hash? */
  ghost predicate StaleBare(db: Db, profileId: string, rules: seq<Rule>, stored: seq<string>) {
    forall k :: k in stored && !Wanted(profileId, rules, k) ==> db.Fields(k) == map[]
  }

  /** One key after m commands of the rule part of an update. */
  lemma {:induction false} ReplaceOrphanAt(profileId: string, rules: seq<Rule>, stored: seq<string>, m: nat,
                                           k: string, st: Status)
    requires m <= |ReplaceQueue(profileId, rules, stored)| && AllRuleKeys(profileId, stored)
    requires st.hash.Keys <= RULE_FIELDS && (st.hash != map[] ==> st.indexed) && (st.indexed <==> k in stored)
    ensures var st' := Effects(profileId, ReplaceQueue(profileId, rules, stored)[..m], k, st);
            st'.hash != map[] && !st'.indexed
            <==> || (m <= |rules| && !st.indexed
                     && exists i :: 0 <= i < m && CustomRuleKey(profileId, rules[i].id) == k)
                 || (m == |RulesQueue(profileId, rules)| + 1
                     && k in stored && !Wanted(profileId, rules, k) && st.hash != map[])
  {
    var queue := RulesQueue(profileId, rules);
    var stale := Stale(stored, Elements(RuleKeys(profileId, rules)));
    PrefixOfSum(queue, StaleQueue(profileId, stale), m);
    if m <= |queue| {
      AddOrphanAt(profileId, rules, m, k, st);
    } else {
      AddOrphanAt(profileId, rules, |queue|, k, st);
      assert queue[..|queue|] == queue;
      RulesQueueEffect(profileId, rules, k, st);
      var mid := Effects(profileId, queue, k, st);
      EffectsSplit(profileId, queue, StaleQueue(profileId, stale)[..m - |queue|], k, st);
      StaleExactly(profileId, stale, m - |queue|, k, mid);
      WantedRule(profileId, rules, k);
    }
  }

  /** What the removal of stale keys has done after its first command, and after both. */
  lemma {:induction false} StaleExactly(profileId: string, stale: seq<string>, m: nat, k: string, st: Status)
    requires 0 < m <= |StaleQueue(profileId, stale)| && AllRuleKeys(profileId, stale)
    ensures Effects(profileId, StaleQueue(profileId, stale)[..m], k, st) ==
            if k !in stale then st else if m == 1 then st.(indexed := false) else Status(false, map[])
  {
    var q := StaleQueue(profileId, stale);
    if m == 1 {
      assert q[..1] == [q[0]];
      assert Effects(profileId, [q[0]], k, st) == Effect(profileId, q[0], k, st);
    } else {
      StaleEffect(profileId, stale, k, st);
      assert q[..2] == q;
    }
  }

  /**
   * An update leaves an unlisted hash in two windows only: while it writes rules, some of them
   * new, before their SADD; and between the SREM and the DEL of stale rules that have hashes.
   */
  lemma {:induction false} UpdateOrphansIff(db: Db, st: Settings, stored: seq<string>, n: nat)
    requires Typed(db, st.profileId) && NoOrphan(db, st.profileId) && Lists(stored, Index(db, st.profileId))
    requires n <= |UpdateCommands(st, stored)|
    ensures NoOrphan(Run(db, UpdateCommands(st, stored)[..n]), st.profileId)
            <==> && (RulePart(st, n) <= |st.rules| ==> WrittenListed(db, st.profileId, st.rules, RulePart(st, n)))
                 && (RulePart(st, n) == |RulesQueue(st.profileId, st.rules)| + 1 ==>
                       StaleBare(db, st.profileId, st.rules, stored))
  {
    var p, m, db' := st.profileId, RulePart(st, n), Run(db, UpdateCommands(st, stored)[..n]);
    ListsMembers(db, p, stored);
    forall k | IsRuleKey(p, k)
      ensures var st' := StatusOf(db', p, k);
              st'.hash != map[] && !st'.indexed
              <==> || (m <= |st.rules| && k !in Index(db, p)
                       && exists i :: 0 <= i < m && CustomRuleKey(p, st.rules[i].id) == k)
                   || (m == |RulesQueue(p, st.rules)| + 1
                       && k in stored && !Wanted(p, st.rules, k) && db.Fields(k) != map[])
    {
      UpdateStatus(db, st, stored, n, k);
      ReplaceOrphanAt(p, st.rules, stored, m, k, StatusOf(db, p, k));
    }
    if m <= |st.rules| {
      forall i | 0 <= i < m ensures IsRuleKey(p, CustomRuleKey(p, st.rules[i].id)) {
        RuleKeyIsRuleKey(p, st.rules[i].id);
      }
    }
    OrphansAreStatuses(db', p);
  }
}
