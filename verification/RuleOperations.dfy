/** What each operation does to one rule key, and how a sequence of commands leaves the key. */
module RuleOperations {
  import opened Redis
  import opened Keys
  import opened ProfileSettings
  import opened CustomRules
  import opened RuleConcurrency
  import opened SettingsMirror
  import opened MirrorHistory

  // ------------------------------------------------------------------ what a command does to a rule key

  predicate Writes(c: Cmd, k: string) {
    c.HSet? && c.key == k
  }

  predicate Enlists(p: string, c: Cmd, k: string) {
    c.SAdd? && c.key == CustomRulesSetKey(p) && k in c.values
  }

  predicate Unlists(p: string, c: Cmd, k: string) {
    || (c.SRem? && c.key == CustomRulesSetKey(p) && k in c.values)
    || (c.Del? && CustomRulesSetKey(p) in c.names)
  }

  predicate Drops(c: Cmd, k: string) {
    c.Del? && k in c.names
  }

  ghost predicate SomeWrites(cs: seq<Cmd>, k: string) {
    exists c :: c in cs && Writes(c, k)
  }

  ghost predicate SomeEnlists(p: string, cs: seq<Cmd>, k: string) {
    exists c :: c in cs && Enlists(p, c, k)
  }

  ghost predicate SomeUnlists(p: string, cs: seq<Cmd>, k: string) {
    exists c :: c in cs && Unlists(p, c, k)
  }

  ghost predicate SomeDrops(cs: seq<Cmd>, k: string) {
    exists c :: c in cs && Drops(c, k)
  }

  /** Are these the things that commands do to k? */
  ghost predicate Does(p: string, cs: seq<Cmd>, k: string, writes: bool, enlists: bool, unlists: bool, drops: bool) {
    && (SomeWrites(cs, k) <==> writes) && (SomeEnlists(p, cs, k) <==> enlists)
    && (SomeUnlists(p, cs, k) <==> unlists) && (SomeDrops(cs, k) <==> drops)
  }

  lemma {:induction false} DoesNothing(p: string, cs: seq<Cmd>, k: string)
    requires forall c :: c in cs ==> !Touches(p, c, k)
    ensures Does(p, cs, k, false, false, false, false)
  {
    forall c | c in cs ensures !Writes(c, k) && !Enlists(p, c, k) && !Unlists(p, c, k) && !Drops(c, k) {
      assert !Touches(p, c, k);
    }
  }

  lemma {:induction false} DoesOne(p: string, c: Cmd, k: string)
    ensures Does(p, [c], k, Writes(c, k), Enlists(p, c, k), Unlists(p, c, k), Drops(c, k))
  {
    assert c in [c];
  }

  lemma {:induction false} DoesBoth(p: string, a: seq<Cmd>, b: seq<Cmd>, c: seq<Cmd>, k: string)
    requires forall x :: x in c <==> x in a || x in b
    ensures Does(p, c, k, SomeWrites(a, k) || SomeWrites(b, k), SomeEnlists(p, a, k) || SomeEnlists(p, b, k),
                 SomeUnlists(p, a, k) || SomeUnlists(p, b, k), SomeDrops(a, k) || SomeDrops(b, k))
  {
  }

  // ------------------------------------------------------------------ what an operation does to a rule key

  function WantedBy(op: Op): seq<Rule> {
    match op
    case Update(st, _) => st.rules
    case AddRules(_, rules) => rules
    case _ => []
  }

  ghost predicate WritesRule(op: Op, k: string) {
    Wanted(op.Profile(), WantedBy(op), k)
  }

  ghost predicate DropsRule(op: Op, k: string) {
    match op
    case Update(st, stored) => k in stored && !Wanted(st.profileId, st.rules, k)
    case RemoveRule(p, ruleId) => k == CustomRuleKey(p, ruleId)
    case DeleteProfile(_, stored) => k in stored
    case _ => false
  }

  /** Is the last thing an operation does to k, that it unlists it? */
  ghost predicate UnlistsLast(op: Op, k: string) {
    match op
    case RemoveRule(p, ruleId) => k == CustomRuleKey(p, ruleId)
    case DeleteProfile(_, _) => true
    case _ => false
  }

  /** Listings hold rule keys, and fields go to hashes that exist in the layout. */
  ghost predicate Proper(op: Op) {
    && (op.Update? || op.DeleteProfile? ==> AllRuleKeys(op.Profile(), op.stored))
    && (op.SetFields? ==> forall f :: f in op.fields ==> f.hash in HASH_NAMES)
  }

  lemma {:induction false} PlainOpApart(op: Op, k: string)
    requires op.SetFields? || op.Append? || op.Remove?
    requires Proper(op) && IsRuleKey(op.Profile(), k)
    ensures forall c :: c in Commands(op) ==> Respects(op.Profile(), c) && !Touches(op.Profile(), c, k)
  {
    forall c | c in Commands(op) ensures Respects(op.Profile(), c) && !Touches(op.Profile(), c, k) {
      match op
      case SetFields(p, fields) =>
        var i :| 0 <= i < |fields| && c == HSet(SettingsKey(p, fields[i].hash), OneField(fields[i]));
        assert fields[i] in fields;
        SettingsNamesOutside(fields[i].hash);
        OutsideRules(p, fields[i].hash);
      case Append(p, l, _) =>
        ListNameFacts(l);
        OutsideRules(p, l.Name());
      case Remove(p, l, _) =>
        ListNameFacts(l);
        OutsideRules(p, l.Name());
    }
  }

  lemma {:induction false} OpRespects(op: Op)
    requires Proper(op)
    ensures forall c :: c in Commands(op) ==> Respects(op.Profile(), c)
  {
    match op
    case Update(st, stored) => UpdateRespects(st, stored);
    case AddRules(p, rules) => QueuesRespect(p, rules, []);
    case RemoveRule(p, ruleId) =>
      SetKeyIsNoRuleKey(p);
    case DeleteProfile(p, stored) => DeleteRespects(p, stored);
    case _ =>
      RuleKeyIsRuleKey(op.Profile(), "");
      PlainOpApart(op, CustomRuleKey(op.Profile(), ""));
  }

  lemma {:induction false} QueueDoes(p: string, rules: seq<Rule>, k: string)
    ensures Does(p, RulesQueue(p, rules), k, Wanted(p, rules, k), Wanted(p, rules, k), false, false)
  {
    if rules != [] {
      var keys, writes := RuleKeys(p, rules), RuleWrites(p, rules);
      var list := SAdd(CustomRulesSetKey(p), keys);
      if k in keys {
        var i :| 0 <= i < |keys| && keys[i] == k;
        assert writes[i] in writes && Writes(writes[i], k);
      }
      assert forall c :: c in writes && Writes(c, k) ==> k in keys by {
        assert forall i :: 0 <= i < |rules| ==> writes[i].key == keys[i];
      }
      assert Does(p, writes, k, k in keys, false, false, false);
      DoesOne(p, list, k);
      DoesBoth(p, writes, [list], RulesQueue(p, rules), k);
    }
  }

  lemma {:induction false} StaleDoes(p: string, stale: seq<string>, k: string)
    requires AllRuleKeys(p, stale)
    ensures Does(p, StaleQueue(p, stale), k, false, false, k in stale, k in stale)
  {
    SetKeyIsNoRuleKey(p);
    if stale != [] {
      var unlist, drop := SRem(CustomRulesSetKey(p), stale), Del(stale);
      DoesOne(p, unlist, k);
      DoesOne(p, drop, k);
      DoesBoth(p, [unlist], [drop], StaleQueue(p, stale), k);
    }
  }

  lemma {:induction false} UpdateDoes(st: Settings, stored: seq<string>, k: string)
    requires AllRuleKeys(st.profileId, stored) && IsRuleKey(st.profileId, k)
    ensures var op := Update(st, stored);
            Does(st.profileId, UpdateCommands(st, stored), k, WritesRule(op, k), WritesRule(op, k),
                 DropsRule(op, k), DropsRule(op, k))
  {
    var p := st.profileId;
    var stale := Stale(stored, Elements(RuleKeys(p, st.rules)));
    SettingsWritesApart(st, k);
    DoesNothing(p, SettingsWrites(st), k);
    QueueDoes(p, st.rules, k);
    StaleDoes(p, stale, k);
    DoesBoth(p, RulesQueue(p, st.rules), StaleQueue(p, stale), ReplaceQueue(p, st.rules, stored), k);
    DoesBoth(p, SettingsWrites(st), ReplaceQueue(p, st.rules, stored), UpdateCommands(st, stored), k);
  }

  lemma {:induction false} RemovalDoes(p: string, ruleId: string, k: string)
    requires IsRuleKey(p, k)
    ensures var gone := k == CustomRuleKey(p, ruleId);
            Does(p, RemoveRuleCommands(p, ruleId), k, false, false, gone, gone)
  {
    SetKeyIsNoRuleKey(p);
    RuleKeyIsRuleKey(p, ruleId);
    var drop, unlist := Del([CustomRuleKey(p, ruleId)]), SRem(CustomRulesSetKey(p), [CustomRuleKey(p, ruleId)]);
    DoesOne(p, drop, k);
    DoesOne(p, unlist, k);
    DoesBoth(p, [drop], [unlist], RemoveRuleCommands(p, ruleId), k);
  }

  lemma {:induction false} DeletesDo(p: string, stored: seq<string>, k: string)
    requires AllRuleKeys(p, stored)
    ensures Does(p, KeyDeletes(stored), k, false, false, false, k in stored)
  {
    SetKeyIsNoRuleKey(p);
    assert forall i :: 0 <= i < |stored| ==> KeyDeletes(stored)[i] == Del([stored[i]]);
    if k in stored {
      var i :| 0 <= i < |stored| && stored[i] == k;
      assert Drops(KeyDeletes(stored)[i], k);
    }
    forall c | c in KeyDeletes(stored) ensures c.Del? && !Unlists(p, c, k) && (Drops(c, k) ==> k in stored) {
      var i :| 0 <= i < |stored| && c == KeyDeletes(stored)[i];
      assert stored[i] in stored;
    }
  }

  lemma {:induction false} DeletionDoes(p: string, stored: seq<string>, k: string)
    requires AllRuleKeys(p, stored) && IsRuleKey(p, k)
    ensures Does(p, DeleteCommands(p, stored), k, false, false, true, k in stored)
  {
    FixedKeysOutside(p);
    SetKeyIsNoRuleKey(p);
    var fixed, index := Del(FixedKeys(p)), Del([CustomRulesSetKey(p)]);
    DoesOne(p, fixed, k);
    DoesOne(p, index, k);
    DeletesDo(p, stored, k);
    DoesBoth(p, [fixed], KeyDeletes(stored), [fixed] + KeyDeletes(stored), k);
    DoesBoth(p, [fixed] + KeyDeletes(stored), [index], DeleteCommands(p, stored), k);
  }

  /** What the commands of an operation do to a rule key. */
  lemma {:induction false} OpDoes(op: Op, k: string)
    requires Proper(op) && IsRuleKey(op.Profile(), k)
    ensures Does(op.Profile(), Commands(op), k, WritesRule(op, k), WritesRule(op, k),
                 DropsRule(op, k) || op.DeleteProfile?, DropsRule(op, k))
  {
    match op
    case Update(st, stored) => UpdateDoes(st, stored, k);
    case AddRules(p, rules) => QueueDoes(p, rules, k);
    case RemoveRule(p, ruleId) => RemovalDoes(p, ruleId, k);
    case DeleteProfile(p, stored) => DeletionDoes(p, stored, k);
    case _ =>
      PlainOpApart(op, k);
      DoesNothing(op.Profile(), Commands(op), k);
  }

  // ------------------------------------------------------------------ the end of a rule key

  /** The hash of k is dropped at some command and not written after it. */
  ghost predicate EndsBare(cs: seq<Cmd>, k: string) {
    exists i :: 0 <= i < |cs| && Drops(cs[i], k) && forall j :: i < j < |cs| ==> !Writes(cs[j], k)
  }

  /** k is listed at some command and not unlisted after it. */
  ghost predicate EndsListed(p: string, cs: seq<Cmd>, k: string) {
    exists i :: 0 <= i < |cs| && Enlists(p, cs[i], k) && forall j :: i < j < |cs| ==> !Unlists(p, cs[j], k)
  }

  lemma {:induction false} EffectsLast(p: string, cs: seq<Cmd>, k: string, st: Status)
    requires cs != []
    ensures var n := |cs| - 1;
            Effects(p, cs, k, st) == Effect(p, cs[n], k, Effects(p, cs[..n], k, st))
  {
    var n := |cs| - 1;
    assert cs == cs[..n] + [cs[n]];
    EffectsSplit(p, cs[..n], [cs[n]], k, st);
    var mid := Effects(p, cs[..n], k, st);
    assert Effects(p, [cs[n]], k, mid) == Effect(p, cs[n], k, mid);
  }

  lemma {:induction false} EndsBareLast(cs: seq<Cmd>, k: string)
    requires cs != []
    ensures var n := |cs| - 1;
            EndsBare(cs, k) <==> Drops(cs[n], k) || (!Writes(cs[n], k) && EndsBare(cs[..n], k))
  {
    var n := |cs| - 1;
    if !Writes(cs[n], k) && EndsBare(cs[..n], k) {
      var i :| 0 <= i < n && Drops(cs[..n][i], k) && forall j :: i < j < n ==> !Writes(cs[..n][j], k);
      assert Drops(cs[i], k);
      assert forall j :: i < j < n ==> cs[j] == cs[..n][j];
    }
    if EndsBare(cs, k) && !Drops(cs[n], k) {
      var i :| 0 <= i < |cs| && Drops(cs[i], k) && forall j :: i < j < |cs| ==> !Writes(cs[j], k);
      assert cs[..n][i] == cs[i];
    }
  }

  lemma {:induction false} EndsListedLast(p: string, cs: seq<Cmd>, k: string)
    requires cs != []
    ensures var n := |cs| - 1;
            EndsListed(p, cs, k) <==> Enlists(p, cs[n], k) || (!Unlists(p, cs[n], k) && EndsListed(p, cs[..n], k))
  {
    var n := |cs| - 1;
    if !Unlists(p, cs[n], k) && EndsListed(p, cs[..n], k) {
      var i :| 0 <= i < n && Enlists(p, cs[..n][i], k) && forall j :: i < j < n ==> !Unlists(p, cs[..n][j], k);
      assert Enlists(p, cs[i], k);
      assert forall j :: i < j < n ==> cs[j] == cs[..n][j];
    }
    if EndsListed(p, cs, k) && !Enlists(p, cs[n], k) {
      var i :| 0 <= i < |cs| && Enlists(p, cs[i], k) && forall j :: i < j < |cs| ==> !Unlists(p, cs[j], k);
      assert cs[..n][i] == cs[i];
    }
  }

  lemma {:induction false} HashAfterOne(p: string, c: Cmd, k: string, st: Status)
    requires Respects(p, c)
    ensures Effect(p, c, k, st).hash == map[] <==> Drops(c, k) || (!Writes(c, k) && st.hash == map[])
  {
    if c.HSet? {
      var f :| f in c.fields;
      assert f in st.hash + c.fields;
    }
  }

  lemma {:induction false} HashAfterAll(p: string, cs: seq<Cmd>, k: string, st: Status)
    requires forall c :: c in cs ==> Respects(p, c)
    ensures Effects(p, cs, k, st).hash == map[] <==> EndsBare(cs, k) || (st.hash == map[] && !SomeWrites(cs, k))
    decreases |cs|
  {
    if cs != [] {
      var n := |cs| - 1;
      assert cs[n] in cs && forall c :: c in cs <==> c in cs[..n] || c == cs[n];
      HashAfterAll(p, cs[..n], k, st);
      EffectsLast(p, cs, k, st);
      EndsBareLast(cs, k);
      HashAfterOne(p, cs[n], k, Effects(p, cs[..n], k, st));
    }
  }

  lemma {:induction false} IndexAfterAll(p: string, cs: seq<Cmd>, k: string, st: Status)
    ensures Effects(p, cs, k, st).indexed <==> EndsListed(p, cs, k) || (st.indexed && !SomeUnlists(p, cs, k))
    decreases |cs|
  {
    if cs != [] {
      var n := |cs| - 1;
      assert cs[n] in cs && forall c :: c in cs <==> c in cs[..n] || c == cs[n];
      IndexAfterAll(p, cs[..n], k, st);
      EffectsLast(p, cs, k, st);
      EndsListedLast(p, cs, k);
    }
  }

  lemma {:induction false} EndsHappen(p: string, cs: seq<Cmd>, k: string)
    ensures EndsBare(cs, k) ==> SomeDrops(cs, k)
    ensures EndsListed(p, cs, k) ==> SomeEnlists(p, cs, k)
  {
    if EndsBare(cs, k) {
      var i :| 0 <= i < |cs| && Drops(cs[i], k) && forall j :: i < j < |cs| ==> !Writes(cs[j], k);
      assert cs[i] in cs;
    }
    if EndsListed(p, cs, k) {
      var i :| 0 <= i < |cs| && Enlists(p, cs[i], k) && forall j :: i < j < |cs| ==> !Unlists(p, cs[j], k);
      assert cs[i] in cs;
    }
  }
}
