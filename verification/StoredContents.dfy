/** What a completed operation leaves stored, field by field and under the names the proxy reads. */
module StoredContents {
  import opened Wrappers
  import opened Redis
  import opened Keys
  import opened ProfileSettings
  import opened CustomRules
  import opened RuleConcurrency
  import opened SettingsMirror
  import opened MirrorHistory

  // ------------------------------------------------------------------ updates

  /** The hash at a profile's name holds the given entries over what it held before. */
  ghost predicate Overlays(before: Db, after: Db, p: string, name: string, entries: map<string, string>) {
    after.Fields(SettingsKey(p, name)) == before.Fields(SettingsKey(p, name)) + entries
  }

  /** Every struct of the settings is under its own name, and both lists are as given. */
  ghost predicate UpdateStored(before: Db, after: Db, st: Settings) {
    var p := st.profileId;
    && Overlays(before, after, p, "logs", st.logs)
    && Overlays(before, after, p, "security:dnssec", st.dnssec)
    && Overlays(before, after, p, "security:rebinding_protection", st.rebinding)
    && Overlays(before, after, p, "advanced", st.advanced)
    && Overlays(before, after, p, "privacy", st.privacy)
    && Overlays(before, after, p, "statistics",
                if st.statistics.Some? then st.statistics.value else map["enabled" := "0", "retention" := ""])
    && after.Items(SettingsKey(p, "blocklists")) == st.blocklists
    && after.Items(SettingsKey(p, "services")) == st.services
  }

  /** Each rule that no later one of the same id replaces is listed, and its hash holds its fields. */
  ghost predicate RulesStored(db: Db, p: string, rules: seq<Rule>) {
    forall i :: 0 <= i < |rules| && (forall j :: i < j < |rules| ==> rules[j].id != rules[i].id) ==>
      && CustomRuleKey(p, rules[i].id) in db.Elems(CustomRulesSetKey(p))
      && db.Fields(CustomRuleKey(p, rules[i].id)) ==
         map["action" := rules[i].action, "value" := rules[i].value, "syntax" := rules[i].syntax]
  }

  /** Which struct belongs to which name. */
  lemma {:induction false} StructsByName(st: Settings)
    ensures HashesOf(st)["logs"] == st.logs && HashesOf(st)["advanced"] == st.advanced
    ensures HashesOf(st)["privacy"] == st.privacy && HashesOf(st)["security:dnssec"] == st.dnssec
    ensures HashesOf(st)["security:rebinding_protection"] == st.rebinding
    ensures HashesOf(st)["statistics"] ==
            if st.statistics.Some? then st.statistics.value else map["enabled" := "0", "retention" := ""]
  {
  }

  lemma {:induction false} SixNames()
    ensures "logs" in HASH_NAMES && "statistics" in HASH_NAMES && "security:dnssec" in HASH_NAMES
    ensures "security:rebinding_protection" in HASH_NAMES && "advanced" in HASH_NAMES && "privacy" in HASH_NAMES
  {
    assert HASH_ORDER[0] == "logs" && HASH_ORDER[1] == "statistics" && HASH_ORDER[2] == "security:dnssec";
    assert HASH_ORDER[3] == "security:rebinding_protection" && HASH_ORDER[4] == "advanced";
    assert HASH_ORDER[5] == "privacy";
  }

  lemma {:induction false} HashStored(db: Db, st: Settings, stored: seq<string>, name: string, entries: FieldMap)
    requires HashesTyped(db, st.profileId) && AllRuleKeys(st.profileId, stored)
    requires name in HASH_NAMES && HashesOf(st)[name] == entries
    ensures Overlays(db, Run(db, UpdateCommands(st, stored)), st.profileId, name, entries)
  {
    SettingsNamesOutside(name);
    OutsideRules(st.profileId, name);
    UpdateSplit(db, st, stored, SettingsKey(st.profileId, name));
    SettingsHashEffect(db, st, name);
  }

  lemma {:induction false} ListStored(db: Db, st: Settings, stored: seq<string>, l: ListName)
    requires AllRuleKeys(st.profileId, stored)
    ensures Run(db, UpdateCommands(st, stored)).Items(SettingsKey(st.profileId, l.Name())) == ListIds(st, l)
  {
    ListNameFacts(l);
    OutsideRules(st.profileId, l.Name());
    UpdateSplit(db, st, stored, SettingsKey(st.profileId, l.Name()));
    SettingsListEffect(db, st, l);
  }

  lemma {:induction false} SecurityStored(db: Db, st: Settings, stored: seq<string>)
    requires HashesTyped(db, st.profileId) && AllRuleKeys(st.profileId, stored)
    ensures var p, after := st.profileId, Run(db, UpdateCommands(st, stored));
            && Overlays(db, after, p, "security:dnssec", st.dnssec)
            && Overlays(db, after, p, "security:rebinding_protection", st.rebinding)
            && Overlays(db, after, p, "advanced", st.advanced)
  {
    SixNames();
    StructsByName(st);
    HashStored(db, st, stored, "security:dnssec", st.dnssec);
    HashStored(db, st, stored, "security:rebinding_protection", st.rebinding);
    HashStored(db, st, stored, "advanced", st.advanced);
  }

  lemma {:induction false} OthersStored(db: Db, st: Settings, stored: seq<string>)
    requires HashesTyped(db, st.profileId) && AllRuleKeys(st.profileId, stored)
    ensures var p, after := st.profileId, Run(db, UpdateCommands(st, stored));
            && Overlays(db, after, p, "logs", st.logs)
            && Overlays(db, after, p, "privacy", st.privacy)
            && Overlays(db, after, p, "statistics",
                        if st.statistics.Some? then st.statistics.value else map["enabled" := "0", "retention" := ""])
  {
    SixNames();
    StructsByName(st);
    HashStored(db, st, stored, "logs", st.logs);
    HashStored(db, st, stored, "privacy", st.privacy);
    HashStored(db, st, stored, "statistics", HashesOf(st)["statistics"]);
  }

  /** A completed update stores every struct, both lists and every rule. */
  lemma {:induction false} UpdateStores(db: Db, st: Settings, stored: seq<string>)
    requires Typed(db, st.profileId) && HashesTyped(db, st.profileId) && Lists(stored, Index(db, st.profileId))
    ensures UpdateStored(db, Run(db, UpdateCommands(st, stored)), st)
    ensures RulesStored(Run(db, UpdateCommands(st, stored)), st.profileId, st.rules)
  {
    ListsMembers(db, st.profileId, stored);
    SecurityStored(db, st, stored);
    OthersStored(db, st, stored);
    ListStored(db, st, stored, Blocklists);
    ListStored(db, st, stored, Services);
    UpdateStoresRules(db, st, stored);
  }

  lemma {:induction false} UpdateStoresRules(db: Db, st: Settings, stored: seq<string>)
    requires Typed(db, st.profileId) && Lists(stored, Index(db, st.profileId))
    ensures RulesStored(Run(db, UpdateCommands(st, stored)), st.profileId, st.rules)
  {
    var p, rules := st.profileId, st.rules;
    ListsMembers(db, p, stored);
    UpdateRespects(st, stored);
    EffectsSound(db, p, UpdateCommands(st, stored));
    forall i | 0 <= i < |rules| && (forall j :: i < j < |rules| ==> rules[j].id != rules[i].id)
      ensures StatusOf(Run(db, UpdateCommands(st, stored)), p, CustomRuleKey(p, rules[i].id)) ==
              Status(true, map["action" := rules[i].action, "value" := rules[i].value, "syntax" := rules[i].syntax])
    {
      RuleKeyIsRuleKey(p, rules[i].id);
      LastRuleIs(p, rules, i);
      UpdateEffect(st, stored, CustomRuleKey(p, rules[i].id), StatusOf(db, p, CustomRuleKey(p, rules[i].id)));
    }
    StatusesStore(Run(db, UpdateCommands(st, stored)), p, rules);
  }

  lemma {:induction false} StatusesStore(db: Db, p: string, rules: seq<Rule>)
    requires forall i :: 0 <= i < |rules| && (forall j :: i < j < |rules| ==> rules[j].id != rules[i].id) ==>
               StatusOf(db, p, CustomRuleKey(p, rules[i].id)) ==
               Status(true, map["action" := rules[i].action, "value" := rules[i].value, "syntax" := rules[i].syntax])
    ensures RulesStored(db, p, rules)
  {
    forall i | 0 <= i < |rules| && (forall j :: i < j < |rules| ==> rules[j].id != rules[i].id)
      ensures CustomRuleKey(p, rules[i].id) in db.Elems(CustomRulesSetKey(p))
      ensures db.Fields(CustomRuleKey(p, rules[i].id)) ==
              map["action" := rules[i].action, "value" := rules[i].value, "syntax" := rules[i].syntax]
    {
      assert StatusOf(db, p, CustomRuleKey(p, rules[i].id)).indexed;
    }
  }

  lemma {:induction false} LastRuleIs(p: string, rules: seq<Rule>, i: nat)
    requires i < |rules| && forall j :: i < j < |rules| ==> rules[j].id != rules[i].id
    ensures LastRule(p, rules, CustomRuleKey(p, rules[i].id)) == Some(rules[i])
    decreases |rules|
  {
    var n := |rules| - 1;
    if i < n {
      RuleKeysSeparate(p, rules[n].id, rules[i].id);
      LastRuleIs(p, rules[..n], i);
    }
  }

  // ------------------------------------------------------------------ adds

  /** One hash of three fields for each rule, in order, and then one SADD of all their keys. */
  ghost predicate Layout(p: string, rules: seq<Rule>, queued: seq<Cmd>) {
    && |queued| == (if rules == [] then 0 else |rules| + 1)
    && (forall i :: 0 <= i < |rules| ==>
          queued[i] == HSet(CustomRuleKey(p, rules[i].id),
                            map["action" := rules[i].action, "value" := rules[i].value, "syntax" := rules[i].syntax]))
    && (rules != [] ==>
          && queued[|rules|].SAdd? && queued[|rules|].key == CustomRulesSetKey(p)
          && |queued[|rules|].values| == |rules|
          && forall i :: 0 <= i < |rules| ==> queued[|rules|].values[i] == CustomRuleKey(p, rules[i].id))
  }

  lemma {:induction false} QueueLayout(p: string, rules: seq<Rule>)
    ensures Layout(p, rules, RulesQueue(p, rules))
  {
    if rules != [] {
      var writes := RuleWrites(p, rules);
      forall i | 0 <= i < |rules|
        ensures writes[i] ==
                HSet(CustomRuleKey(p, rules[i].id),
                     map["action" := rules[i].action, "value" := rules[i].value, "syntax" := rules[i].syntax])
      {
      }
    }
  }

  /** A completed add stores every rule and leaves the other rules as they were. */
  lemma {:induction false} AddStores(db: Db, p: string, rules: seq<Rule>)
    requires Typed(db, p)
    ensures RulesStored(Run(db, RulesQueue(p, rules)), p, rules)
    ensures forall k :: IsRuleKey(p, k) && (forall r :: r in rules ==> k != CustomRuleKey(p, r.id)) ==>
              StatusOf(Run(db, RulesQueue(p, rules)), p, k) == StatusOf(db, p, k)
  {
    var db' := Run(db, RulesQueue(p, rules));
    QueuesRespect(p, rules, []);
    EffectsSound(db, p, RulesQueue(p, rules));
    forall i | 0 <= i < |rules| && (forall j :: i < j < |rules| ==> rules[j].id != rules[i].id)
      ensures StatusOf(db', p, CustomRuleKey(p, rules[i].id)) ==
              Status(true, map["action" := rules[i].action, "value" := rules[i].value, "syntax" := rules[i].syntax])
    {
      RuleKeyIsRuleKey(p, rules[i].id);
      LastRuleIs(p, rules, i);
      RulesQueueEffect(p, rules, CustomRuleKey(p, rules[i].id), StatusOf(db, p, CustomRuleKey(p, rules[i].id)));
    }
    StatusesStore(db', p, rules);
    forall k | IsRuleKey(p, k) && (forall r :: r in rules ==> k != CustomRuleKey(p, r.id))
      ensures StatusOf(db', p, k) == StatusOf(db, p, k)
    {
      RulesQueueEffect(p, rules, k, StatusOf(db, p, k));
    }
  }

  // ------------------------------------------------------------------ removals

  /** A completed removal takes the rule off the set and drops its hash; other rules stay as they were. */
  lemma {:induction false} RemovalStores(db: Db, p: string, ruleId: string)
    requires Typed(db, p)
    ensures var db', key := Run(db, RemoveRuleCommands(p, ruleId)), CustomRuleKey(p, ruleId);
            && key !in db'.Elems(CustomRulesSetKey(p)) && db'.Fields(key) == map[]
            && (forall k :: IsRuleKey(p, k) && k != key ==> StatusOf(db', p, k) == StatusOf(db, p, k))
  {
    var cs, key := RemoveRuleCommands(p, ruleId), CustomRuleKey(p, ruleId);
    SetKeyIsNoRuleKey(p);
    RuleKeyIsRuleKey(p, ruleId);
    EffectsSound(db, p, cs);
    assert cs[..2] == cs;
    forall k | IsRuleKey(p, k)
      ensures StatusOf(Run(db, cs), p, k) == if k == key then Status(false, map[]) else StatusOf(db, p, k)
    {
      RemoveEffect(p, ruleId, 2, k, StatusOf(db, p, k));
    }
    assert StatusOf(Run(db, cs), p, key) == Status(false, map[]);
  }

  // ------------------------------------------------------------------ single fields

  predicate Names(f: SettingsField, hash: string, field: string) {
    f.hash == hash && f.field == field
  }

  ghost predicate FieldsTyped(db: Db, p: string, fields: seq<SettingsField>) {
    forall i :: 0 <= i < |fields| ==>
      var k := SettingsKey(p, fields[i].hash);
      k in db.keys ==> db.keys[k].Hash?
  }

  /** Each entry that no later one overrides is stored under its field. */
  ghost predicate NamedSet(after: Db, p: string, fields: seq<SettingsField>) {
    forall i :: 0 <= i < |fields|
                && (forall j :: i < j < |fields| ==> !Names(fields[j], fields[i].hash, fields[i].field)) ==>
      var h := after.Fields(SettingsKey(p, fields[i].hash));
      fields[i].field in h && h[fields[i].field] == fields[i].value
  }

  /** A field that no entry names is as before. */
  ghost predicate UnnamedKept(before: Db, after: Db, p: string, fields: seq<SettingsField>) {
    forall hash, field :: (forall i :: 0 <= i < |fields| ==> !Names(fields[i], hash, field)) ==>
      SameField(before.Fields(SettingsKey(p, hash)), after.Fields(SettingsKey(p, hash)), field)
  }

  /** Every key that is not the hash of an entry is as before. */
  ghost predicate OtherKeysKept(before: Db, after: Db, p: string, fields: seq<SettingsField>) {
    forall k :: (forall i :: 0 <= i < |fields| ==> k != SettingsKey(p, fields[i].hash)) ==>
      after.Peek(k) == before.Peek(k)
  }

  ghost predicate FieldsStored(before: Db, after: Db, p: string, fields: seq<SettingsField>) {
    NamedSet(after, p, fields) && UnnamedKept(before, after, p, fields) && OtherKeysKept(before, after, p, fields)
  }

  predicate SameField(a: map<string, string>, b: map<string, string>, field: string) {
    (field in a <==> field in b) && (field in a ==> a[field] == b[field])
  }

  /** One write sets its field and nothing else. */
  lemma {:induction false} OneFieldStored(db: Db, p: string, f: SettingsField)
    requires SettingsKey(p, f.hash) in db.keys ==> db.keys[SettingsKey(p, f.hash)].Hash?
    ensures var db' := Apply(db, HSet(SettingsKey(p, f.hash), OneField(f)));
            && f.field in db'.Fields(SettingsKey(p, f.hash)) && db'.Fields(SettingsKey(p, f.hash))[f.field] == f.value
            && (forall hash, field :: !Names(f, hash, field) ==>
                  SameField(db.Fields(SettingsKey(p, hash)), db'.Fields(SettingsKey(p, hash)), field))
            && (forall k :: k in db.keys && db.keys[k].Hash? ==> k in db'.keys && db'.keys[k].Hash?)
            && (forall k :: k in db'.keys && k !in db.keys ==> db'.keys[k].Hash?)
            && (forall k :: k != SettingsKey(p, f.hash) ==> db'.Peek(k) == db.Peek(k))
  {
    var c := HSet(SettingsKey(p, f.hash), OneField(f));
    forall hash, field | !Names(f, hash, field)
      ensures SameField(db.Fields(SettingsKey(p, hash)), Apply(db, c).Fields(SettingsKey(p, hash)), field)
    {
      SettingsNamesInjective(p, hash, f.hash);
    }
  }

  lemma {:induction false} FieldKept(db: Db, p: string, fields: seq<SettingsField>, hash: string, field: string)
    requires FieldsTyped(db, p, fields) && forall i :: 0 <= i < |fields| ==> !Names(fields[i], hash, field)
    ensures SameField(db.Fields(SettingsKey(p, hash)),
                      Run(db, FieldWrites(p, fields)).Fields(SettingsKey(p, hash)), field)
    decreases |fields|
  {
    if fields != [] {
      var db' := FirstField(db, p, fields);
      assert !Names(fields[0], hash, field);
      FieldKept(db', p, fields[1..], hash, field);
    }
  }

  /** The state after the first write. */
  lemma {:induction false} FirstField(db: Db, p: string, fields: seq<SettingsField>) returns (db': Db)
    requires fields != [] && FieldsTyped(db, p, fields)
    ensures db' == Apply(db, HSet(SettingsKey(p, fields[0].hash), OneField(fields[0])))
    ensures Run(db, FieldWrites(p, fields)) == Run(db', FieldWrites(p, fields[1..])) && FieldsTyped(db', p, fields[1..])
    ensures var k := SettingsKey(p, fields[0].hash);
            fields[0].field in db'.Fields(k) && db'.Fields(k)[fields[0].field] == fields[0].value
    ensures forall hash, field :: !Names(fields[0], hash, field) ==>
              SameField(db.Fields(SettingsKey(p, hash)), db'.Fields(SettingsKey(p, hash)), field)
  {
    var f := fields[0];
    db' := Apply(db, HSet(SettingsKey(p, f.hash), OneField(f)));
    assert FieldWrites(p, fields)[1..] == FieldWrites(p, fields[1..]);
    OneFieldStored(db, p, f);
    forall i | 0 <= i < |fields[1..]|
      ensures var k := SettingsKey(p, fields[1..][i].hash);
              k in db'.keys ==> db'.keys[k].Hash?
    {
      assert fields[1..][i] == fields[i + 1];
    }
  }

  lemma {:induction false} FieldSet(db: Db, p: string, fields: seq<SettingsField>, i: nat)
    requires FieldsTyped(db, p, fields) && i < |fields|
    requires forall j :: i < j < |fields| ==> !Names(fields[j], fields[i].hash, fields[i].field)
    ensures var h := Run(db, FieldWrites(p, fields)).Fields(SettingsKey(p, fields[i].hash));
            fields[i].field in h && h[fields[i].field] == fields[i].value
    decreases |fields|
  {
    var db' := FirstField(db, p, fields);
    LaterOnes(fields, i);
    if i == 0 {
      FieldKept(db', p, fields[1..], fields[0].hash, fields[0].field);
    } else {
      FieldSet(db', p, fields[1..], i - 1);
    }
  }

  lemma {:induction false} LaterOnes(fields: seq<SettingsField>, i: nat)
    requires i < |fields| && forall j :: i < j < |fields| ==> !Names(fields[j], fields[i].hash, fields[i].field)
    ensures i > 0 ==> fields[1..][i - 1] == fields[i]
    ensures forall j :: 0 <= j < |fields[1..]| && j > i - 1 ==> !Names(fields[1..][j], fields[i].hash, fields[i].field)
  {
    assert forall j :: 0 <= j < |fields| - 1 ==> fields[1..][j] == fields[j + 1];
  }

  lemma {:induction false} AllSet(db: Db, p: string, fields: seq<SettingsField>)
    requires FieldsTyped(db, p, fields)
    ensures NamedSet(Run(db, FieldWrites(p, fields)), p, fields)
  {
    forall i | 0 <= i < |fields|
               && (forall j :: i < j < |fields| ==> !Names(fields[j], fields[i].hash, fields[i].field))
      ensures var h := Run(db, FieldWrites(p, fields)).Fields(SettingsKey(p, fields[i].hash));
              fields[i].field in h && h[fields[i].field] == fields[i].value
    {
      FieldSet(db, p, fields, i);
    }
  }

  lemma {:induction false} AllKept(db: Db, p: string, fields: seq<SettingsField>)
    requires FieldsTyped(db, p, fields)
    ensures UnnamedKept(db, Run(db, FieldWrites(p, fields)), p, fields)
    ensures OtherKeysKept(db, Run(db, FieldWrites(p, fields)), p, fields)
  {
    var db' := Run(db, FieldWrites(p, fields));
    forall hash, field | (forall i :: 0 <= i < |fields| ==> !Names(fields[i], hash, field))
      ensures SameField(db.Fields(SettingsKey(p, hash)), db'.Fields(SettingsKey(p, hash)), field)
    {
      FieldKept(db, p, fields, hash, field);
    }
    forall k | (forall i :: 0 <= i < |fields| ==> k != SettingsKey(p, fields[i].hash))
      ensures db'.Peek(k) == db.Peek(k)
    {
      RunFrame(db, FieldWrites(p, fields), k);
    }
  }

  /** Completed writes of single fields store them, and leave everything else alone. */
  lemma {:induction false} FieldsStore(db: Db, p: string, fields: seq<SettingsField>)
    requires FieldsTyped(db, p, fields)
    ensures FieldsStored(db, Run(db, FieldWrites(p, fields)), p, fields)
  {
    AllSet(db, p, fields);
    AllKept(db, p, fields);
  }

  // ------------------------------------------------------------------ lists

  /** The list at key, if a list or nothing is stored there. */
  ghost predicate ListTyped(db: Db, key: string) {
    db.Peek(key) == OfList(db.Items(key))
  }

  function ListKey(p: string, l: ListName): string {
    match l
    case Blocklists => SettingsKey(p, "blocklists")
    case Services => SettingsKey(p, "services")
  }

  /** A completed append puts the ids after what the list held, in their order. */
  lemma {:induction false} AppendStores(db: Db, p: string, l: ListName, ids: seq<string>)
    requires ListTyped(db, ListKey(p, l))
    ensures var db' := Run(db, AppendCommands(p, l.Name(), ids));
            && db'.Items(ListKey(p, l)) == db.Items(ListKey(p, l)) + ids
            && forall k :: k != ListKey(p, l) ==> db'.Peek(k) == db.Peek(k)
  {
    if ids != [] {
      var c := RPush(SettingsKey(p, l.Name()), ids);
      assert Run(db, [c]) == Apply(db, c);
    } else {
      assert db.Items(ListKey(p, l)) + ids == db.Items(ListKey(p, l));
    }
  }

  lemma {:induction false} WithoutSnoc(items: seq<string>, y: string, x: string)
    ensures Without(items + [y], x) == Without(items, x) + (if y == x then [] else [y])
    decreases |items|
  {
    if items == [] {
      assert [] + [y] == [y] && [y][1..] == [];
    } else {
      assert (items + [y])[1..] == items[1..] + [y];
      WithoutSnoc(items[1..], y, x);
    }
  }

  /** Removal goes element by element: it keeps what is not named, in place. */
  lemma {:induction false} RemoveAllSnoc(items: seq<string>, y: string, ids: seq<string>)
    ensures RemoveAll([], ids) == []
    ensures RemoveAll(items + [y], ids) == RemoveAll(items, ids) + (if y in ids then [] else [y])
    decreases |ids|
  {
    if ids != [] {
      var x := ids[0];
      WithoutSnoc(items, y, x);
      assert Without([], x) == [];
      RemoveAllSnoc(Without(items, x), y, ids[1..]);
      assert y in ids <==> y == x || y in ids[1..];
      assert Without(items, x) + [] == Without(items, x);
    }
  }

  /** A completed removal leaves the list without the named ids, and every other key alone. */
  lemma {:induction false} RemoveStores(db: Db, p: string, l: ListName, ids: seq<string>)
    requires ListTyped(db, ListKey(p, l))
    ensures var db' := Run(db, RemoveCommands(p, l.Name(), ids));
            && db'.Items(ListKey(p, l)) == RemoveAll(db.Items(ListKey(p, l)), ids)
            && forall k :: k != ListKey(p, l) ==> db'.Peek(k) == db.Peek(k)
  {
    assert ListKey(p, l) == SettingsKey(p, l.Name());
    RemovalsStore(db, ListKey(p, l), p, l.Name(), ids);
  }

  lemma {:induction false} RemovalsStore(db: Db, key: string, p: string, name: string, ids: seq<string>)
    requires key == SettingsKey(p, name) && ListTyped(db, key)
    ensures var db' := Run(db, RemoveCommands(p, name, ids));
            && db'.Items(key) == RemoveAll(db.Items(key), ids)
            && forall k :: k != key ==> db'.Peek(k) == db.Peek(k)
    decreases |ids|
  {
    if ids != [] {
      OneRemoved(db, key, ids[0]);
      assert RemoveCommands(p, name, ids)[1..] == RemoveCommands(p, name, ids[1..]);
      RemovalsStore(Apply(db, LRem(key, ids[0])), key, p, name, ids[1..]);
    }
  }

  lemma {:induction false} OneRemoved(db: Db, key: string, id: string)
    requires ListTyped(db, key)
    ensures var db' := Apply(db, LRem(key, id));
            && ListTyped(db', key) && db'.Items(key) == Without(db.Items(key), id)
            && forall k :: k != key ==> db'.Peek(k) == db.Peek(k)
  {
  }
}
