/** Histories of completed operations on the mirrored settings of many profiles. */
module MirrorHistory {
  import opened Wrappers
  import opened Text
  import opened Redis
  import opened Keys
  import opened ProfileSettings
  import opened CustomRules
  import opened RuleConcurrency
  import opened SettingsMirror

  /** An operation; stored is the order in which the server lists the profile's rule set. */
  datatype Op =
    | Update(st: Settings, stored: seq<string>)
    | SetFields(p: string, fields: seq<SettingsField>)
    | AddRules(p: string, rules: seq<Rule>)
    | RemoveRule(p: string, ruleId: string)
    | DeleteProfile(p: string, stored: seq<string>)
    | Append(p: string, l: ListName, ids: seq<string>)
    | Remove(p: string, l: ListName, ids: seq<string>)
  {
    function Profile(): string {
      if Update? then st.profileId else p
    }
  }

  function Commands(op: Op): seq<Cmd> {
    match op
    case Update(st, stored) => UpdateCommands(st, stored)
    case SetFields(p, fields) => FieldWrites(p, fields)
    case AddRules(p, rules) => RulesQueue(p, rules)
    case RemoveRule(p, ruleId) => RemoveRuleCommands(p, ruleId)
    case DeleteProfile(p, stored) => DeleteCommands(p, stored)
    case Append(p, l, ids) => AppendCommands(p, l.Name(), ids)
    case Remove(p, l, ids) => RemoveCommands(p, l.Name(), ids)
  }

  /** The listing is the server's, and fields go to hashes that exist in the layout. */
  predicate Listed(db: Db, op: Op) {
    && (op.Update? || op.DeleteProfile? ==> Lists(op.stored, Index(db, op.Profile())))
    && (op.SetFields? ==> forall f :: f in op.fields ==> f.hash in HASH_NAMES)
  }

  predicate Ready(db: Db, op: Op) {
    ColonFree(op.Profile()) && Listed(db, op)
  }

  // ------------------------------------------------------------------ operations on the image

  function Overlay(m: map<string, string>, fields: FieldMap): FieldMap {
    var r := m + fields;
    assert r.Keys == m.Keys + fields.Keys;
    assert |r.Keys - (m.Keys - fields.Keys)| == |fields.Keys| by {
      assert r.Keys - (m.Keys - fields.Keys) == fields.Keys;
    }
    r
  }

  function FieldsOf(hashes: map<string, FieldMap>, name: string): map<string, string> {
    if name in hashes then hashes[name] else map[]
  }

  /** The rules by id; a repeated id keeps its last rule. */
  function RuleMap(rules: seq<Rule>): map<string, Rule> {
    if rules == [] then map[]
    else
      var n := |rules| - 1;
      RuleMap(rules[..n])[rules[n].id := rules[n]]
  }

  function SetField(hashes: map<string, FieldMap>, f: SettingsField): map<string, FieldMap> {
    hashes[f.hash := Overlay(FieldsOf(hashes, f.hash), OneField(f))]
  }

  function SetFieldsIn(hashes: map<string, FieldMap>, fields: seq<SettingsField>): map<string, FieldMap>
    decreases |fields|
  {
    if fields == [] then hashes else SetFieldsIn(SetField(hashes, fields[0]), fields[1..])
  }

  function RemoveAll(items: seq<string>, ids: seq<string>): seq<string>
    decreases |ids|
  {
    if ids == [] then items else RemoveAll(Without(items, ids[0]), ids[1..])
  }

  /** The named hashes, each overlaid with the struct that belongs to it. */
  function Overlaid(hashes: map<string, FieldMap>, structs: map<string, FieldMap>, names: seq<string>)
      : map<string, FieldMap>
    requires forall name :: name in names ==> name in structs
  {
    if names == [] then map[]
    else Overlaid(hashes, structs, names[1..])[names[0] := Overlay(FieldsOf(hashes, names[0]), structs[names[0]])]
  }

  lemma {:induction false} OverlaidAt(hashes: map<string, FieldMap>, structs: map<string, FieldMap>,
                                      names: seq<string>, name: string)
    requires forall n :: n in names ==> n in structs
    ensures HashCell(Overlaid(hashes, structs, names), name) ==
            if name in names then Some(Hash(Overlay(FieldsOf(hashes, name), structs[name]))) else None
  {
    if names != [] {
      OverlaidAt(hashes, structs, names[1..], name);
    }
  }

  function OverlayAll(hashes: map<string, FieldMap>, st: Settings): map<string, FieldMap> {
    Overlaid(hashes, HashesOf(st), HASH_ORDER)
  }

  /** What an operation means. */
  function Meaning(im: Image, op: Op): Image {
    match op
    case Update(st, _) =>
      Image(st.blocklists, st.services,
            OverlayAll(im.hashes, st), RuleMap(st.rules))
    case SetFields(_, fields) => im.(hashes := SetFieldsIn(im.hashes, fields))
    case AddRules(_, rules) => im.(rules := im.rules + RuleMap(rules))
    case RemoveRule(_, ruleId) => im.(rules := im.rules - {ruleId})
    case DeleteProfile(_, _) => EMPTY_IMAGE
    case Append(_, l, ids) => WithList(im, l, ListOf(im, l) + ids)
    case Remove(_, l, ids) => WithList(im, l, RemoveAll(ListOf(im, l), ids))
  }

  // ------------------------------------------------------------------ frames

  lemma {:induction false} RulesFrame(db: Db, db': Db, profileId: string, rules: map<string, Rule>)
    requires RulesEncode(db, profileId, rules)
    requires forall k :: IsRuleKey(profileId, k) || k == CustomRulesSetKey(profileId) ==> db'.Peek(k) == db.Peek(k)
    ensures RulesEncode(db', profileId, rules)
  {
    assert forall k :: db'.Peek(k) == db.Peek(k) ==> db'.Fields(k) == db.Fields(k) && db'.Elems(k) == db.Elems(k);
    forall id ensures StatusOf(db', profileId, CustomRuleKey(profileId, id)) == RuleStatus(rules, id) {
      RuleKeyIsRuleKey(profileId, id);
    }
  }

  lemma {:induction false} PlainFrame(db: Db, db': Db, profileId: string, im: Image)
    requires PlainEncodes(db, profileId, im)
    requires forall name :: Outside(name) ==>
               db'.Peek(SettingsKey(profileId, name)) == db.Peek(SettingsKey(profileId, name))
    ensures PlainEncodes(db', profileId, im)
  {
    forall l: ListName ensures Outside(l.Name()) {
      ListNameFacts(l);
    }
    forall name | name in HASH_NAMES ensures Outside(name) {
      SettingsNamesOutside(name);
    }
  }

  /** The plain part of an encoding does not depend on the rules. */
  lemma {:induction false} Combine(db: Db, profileId: string, im: Image, rules: map<string, Rule>)
    requires PlainEncodes(db, profileId, im) && RulesEncode(db, profileId, rules)
    ensures Encodes(db, profileId, im.(rules := rules))
  {
    assert forall l: ListName :: ListOf(im.(rules := rules), l) == ListOf(im, l);
  }

  lemma {:induction false} RuleKeyIsSettingsKey(profileId: string, k: string) returns (name: string)
    requires IsRuleKey(profileId, k) || k == CustomRulesSetKey(profileId)
    ensures k == SettingsKey(profileId, name)
  {
    if k == CustomRulesSetKey(profileId) {
      name := "custom_rules";
    } else {
      name := "custom_rule:" + k[|CustomRuleKey(profileId, "")|..];
      assert k == CustomRuleKey(profileId, "") + k[|CustomRuleKey(profileId, "")|..];
    }
  }

  /** A profile none of whose keys are written keeps its image. */
  lemma {:induction false} EncodesFrame(db: Db, cs: seq<Cmd>, profileId: string, im: Image)
    requires Encodes(db, profileId, im)
    requires forall c, name :: c in cs ==> SettingsKey(profileId, name) !in Written(c)
    ensures Encodes(Run(db, cs), profileId, im)
  {
    forall name ensures Run(db, cs).Peek(SettingsKey(profileId, name)) == db.Peek(SettingsKey(profileId, name)) {
      RunFrame(db, cs, SettingsKey(profileId, name));
    }
    PlainFrame(db, Run(db, cs), profileId, im);
    forall k | IsRuleKey(profileId, k) || k == CustomRulesSetKey(profileId) ensures Run(db, cs).Peek(k) == db.Peek(k) {
      var name := RuleKeyIsSettingsKey(profileId, k);
    }
    RulesFrame(db, Run(db, cs), profileId, im.rules);
  }

  // ------------------------------------------------------------------ one operation

  lemma {:induction false} RuleMapLast(profileId: string, rules: seq<Rule>, id: string)
    ensures LastRule(profileId, rules, CustomRuleKey(profileId, id)) ==
            if id in RuleMap(rules) then Some(RuleMap(rules)[id]) else None
    decreases |rules|
  {
    if rules != [] {
      var n := |rules| - 1;
      RuleKeysSeparate(profileId, rules[n].id, id);
      RuleMapLast(profileId, rules[..n], id);
    }
  }

  lemma {:induction false} UpdateRules(db: Db, st: Settings, stored: seq<string>, rules: map<string, Rule>)
    requires RulesEncode(db, st.profileId, rules) && Lists(stored, Index(db, st.profileId))
    ensures RulesEncode(Run(db, UpdateCommands(st, stored)), st.profileId, RuleMap(st.rules))
  {
    var p, cs := st.profileId, UpdateCommands(st, stored);
    ListsMembers(db, p, stored);
    UpdateRespects(st, stored);
    EffectsSound(db, p, cs);
    forall id ensures StatusOf(Run(db, cs), p, CustomRuleKey(p, id)) == RuleStatus(RuleMap(st.rules), id) {
      RuleKeyIsRuleKey(p, id);
      RuleMapLast(p, st.rules, id);
      assert StatusOf(db, p, CustomRuleKey(p, id)) == RuleStatus(rules, id);
      UpdateEffect(st, stored, CustomRuleKey(p, id), StatusOf(db, p, CustomRuleKey(p, id)));
    }
  }

  lemma {:induction false} UpdateForeign(db: Db, st: Settings, stored: seq<string>, im: Image, name: string)
    requires PlainEncodes(db, st.profileId, im) && AllRuleKeys(st.profileId, stored)
    requires Outside(name) && name !in SETTINGS_NAMES
    ensures Run(db, UpdateCommands(st, stored)).Peek(SettingsKey(st.profileId, name)) == None
  {
    var p := st.profileId;
    OutsideRules(p, name);
    forall n | n in SETTINGS_NAMES ensures SettingsKey(p, name) != SettingsKey(p, n) {
      SameKey(p, name, n);
    }
    UpdateSplit(db, st, stored, SettingsKey(p, name));
    SettingsWritesFrame(db, st, SettingsKey(p, name));
  }

  lemma {:induction false} UpdateHash(db: Db, st: Settings, stored: seq<string>, im: Image, name: string)
    requires PlainEncodes(db, st.profileId, im) && AllRuleKeys(st.profileId, stored) && name in HASH_NAMES
    ensures Run(db, UpdateCommands(st, stored)).Peek(SettingsKey(st.profileId, name)) ==
            HashCell(OverlayAll(im.hashes, st), name)
  {
    SettingsNamesOutside(name);
    OutsideRules(st.profileId, name);
    UpdateSplit(db, st, stored, SettingsKey(st.profileId, name));
    SettingsHashEffect(db, st, name);
    OverlaidAt(im.hashes, HashesOf(st), HASH_ORDER, name);
    assert db.Peek(SettingsKey(st.profileId, name)) == HashCell(im.hashes, name);
  }

  lemma {:induction false} UpdateList(db: Db, st: Settings, stored: seq<string>, l: ListName)
    requires AllRuleKeys(st.profileId, stored)
    ensures Run(db, UpdateCommands(st, stored)).Peek(SettingsKey(st.profileId, l.Name())) == OfList(ListIds(st, l))
  {
    ListNameFacts(l);
    OutsideRules(st.profileId, l.Name());
    UpdateSplit(db, st, stored, SettingsKey(st.profileId, l.Name()));
    SettingsListEffect(db, st, l);
  }

  lemma {:induction false} UpdateHashes(db: Db, st: Settings, stored: seq<string>, im: Image)
    requires PlainEncodes(db, st.profileId, im) && AllRuleKeys(st.profileId, stored)
    ensures var db' := Run(db, UpdateCommands(st, stored));
            forall name :: name in HASH_NAMES ==>
              db'.Peek(SettingsKey(st.profileId, name)) == HashCell(OverlayAll(im.hashes, st), name)
  {
    forall name | name in HASH_NAMES
      ensures Run(db, UpdateCommands(st, stored)).Peek(SettingsKey(st.profileId, name)) ==
              HashCell(OverlayAll(im.hashes, st), name)
    {
      UpdateHash(db, st, stored, im, name);
    }
  }

  lemma {:induction false} UpdateForeigns(db: Db, st: Settings, stored: seq<string>, im: Image)
    requires PlainEncodes(db, st.profileId, im) && AllRuleKeys(st.profileId, stored)
    ensures var db' := Run(db, UpdateCommands(st, stored));
            forall name :: Outside(name) && name !in SETTINGS_NAMES ==>
              db'.Peek(SettingsKey(st.profileId, name)) == None
  {
    forall name | Outside(name) && name !in SETTINGS_NAMES
      ensures Run(db, UpdateCommands(st, stored)).Peek(SettingsKey(st.profileId, name)) == None
    {
      UpdateForeign(db, st, stored, im, name);
    }
  }

  lemma {:induction false} UpdatePlain(db: Db, db': Db, st: Settings, stored: seq<string>, im: Image,
                                       rules: map<string, Rule>)
    requires PlainEncodes(db, st.profileId, im) && AllRuleKeys(st.profileId, stored)
    requires db' == Run(db, UpdateCommands(st, stored))
    ensures PlainEncodes(db', st.profileId,
                         Image(st.blocklists, st.services, OverlayAll(im.hashes, st), rules))
  {
    UpdateHashes(db, st, stored, im);
    UpdateForeigns(db, st, stored, im);
    UpdateList(db, st, stored, Blocklists);
    UpdateList(db, st, stored, Services);
    ComposePlain(db', st.profileId, Image(st.blocklists, st.services, OverlayAll(im.hashes, st), rules));
  }

  lemma {:induction false} ComposePlain(db: Db, p: string, im: Image)
    requires db.Peek(SettingsKey(p, Blocklists.Name())) == OfList(im.blocklists)
    requires db.Peek(SettingsKey(p, Services.Name())) == OfList(im.services)
    requires forall name :: name in HASH_NAMES ==> db.Peek(SettingsKey(p, name)) == HashCell(im.hashes, name)
    requires forall name :: Outside(name) && name !in SETTINGS_NAMES ==> db.Peek(SettingsKey(p, name)) == None
    ensures PlainEncodes(db, p, im)
  {
    forall l: ListName ensures db.Peek(SettingsKey(p, l.Name())) == OfList(ListOf(im, l)) {
      match l
      case Blocklists =>
      case Services =>
    }
  }

  lemma {:induction false} UpdateMeaning(db: Db, st: Settings, stored: seq<string>, im: Image)
    requires Encodes(db, st.profileId, im) && Lists(stored, Index(db, st.profileId))
    ensures Encodes(Run(db, UpdateCommands(st, stored)), st.profileId, Meaning(im, Update(st, stored)))
  {
    ListsMembers(db, st.profileId, stored);
    UpdateRules(db, st, stored, im.rules);
    UpdatePlain(db, Run(db, UpdateCommands(st, stored)), st, stored, im, RuleMap(st.rules));
  }

  lemma {:induction false} PlainUntouched(db: Db, cs: seq<Cmd>, p: string, im: Image)
    requires PlainEncodes(db, p, im)
    requires forall c, name :: c in cs && Outside(name) ==> SettingsKey(p, name) !in Written(c)
    ensures PlainEncodes(Run(db, cs), p, im)
  {
    forall name | Outside(name) ensures Run(db, cs).Peek(SettingsKey(p, name)) == db.Peek(SettingsKey(p, name)) {
      RunFrame(db, cs, SettingsKey(p, name));
    }
    PlainFrame(db, Run(db, cs), p, im);
  }

  lemma {:induction false} AddMeaning(db: Db, p: string, rules: seq<Rule>, im: Image)
    requires Encodes(db, p, im)
    ensures Encodes(Run(db, RulesQueue(p, rules)), p, im.(rules := im.rules + RuleMap(rules)))
  {
    AddRulesEncoded(db, p, rules, im.rules);
    forall name | Outside(name)
      ensures Run(db, RulesQueue(p, rules)).Peek(SettingsKey(p, name)) == db.Peek(SettingsKey(p, name))
    {
      OutsideRules(p, name);
      RulesQueueFrame(db, p, rules, SettingsKey(p, name));
    }
    PlainFrame(db, Run(db, RulesQueue(p, rules)), p, im);
    Combine(Run(db, RulesQueue(p, rules)), p, im, im.rules + RuleMap(rules));
  }

  lemma {:induction false} AddRulesEncoded(db: Db, p: string, rules: seq<Rule>, rules0: map<string, Rule>)
    requires RulesEncode(db, p, rules0)
    ensures RulesEncode(Run(db, RulesQueue(p, rules)), p, rules0 + RuleMap(rules))
  {
    QueuesRespect(p, rules, []);
    EffectsSound(db, p, RulesQueue(p, rules));
    forall id
      ensures StatusOf(Run(db, RulesQueue(p, rules)), p, CustomRuleKey(p, id)) ==
                RuleStatus(rules0 + RuleMap(rules), id)
    {
      RuleKeyIsRuleKey(p, id);
      RuleMapLast(p, rules, id);
      assert StatusOf(db, p, CustomRuleKey(p, id)) == RuleStatus(rules0, id);
      RulesQueueEffect(p, rules, CustomRuleKey(p, id), StatusOf(db, p, CustomRuleKey(p, id)));
    }
  }

  lemma {:induction false} RemoveRuleEncoded(db: Db, p: string, ruleId: string, rules: map<string, Rule>)
    requires RulesEncode(db, p, rules)
    ensures RulesEncode(Run(db, RemoveRuleCommands(p, ruleId)), p, rules - {ruleId})
  {
    var cs := RemoveRuleCommands(p, ruleId);
    assert cs[..2] == cs;
    SetKeyIsNoRuleKey(p);
    RuleKeyIsRuleKey(p, ruleId);
    EffectsSound(db, p, cs);
    forall id ensures StatusOf(Run(db, cs), p, CustomRuleKey(p, id)) == RuleStatus(rules - {ruleId}, id) {
      RuleKeyIsRuleKey(p, id);
      RuleKeysSeparate(p, id, ruleId);
      assert StatusOf(db, p, CustomRuleKey(p, id)) == RuleStatus(rules, id);
      RemoveEffect(p, ruleId, 2, CustomRuleKey(p, id), StatusOf(db, p, CustomRuleKey(p, id)));
    }
  }

  lemma {:induction false} RemoveRuleMeaning(db: Db, p: string, ruleId: string, im: Image)
    requires Encodes(db, p, im)
    ensures Encodes(Run(db, RemoveRuleCommands(p, ruleId)), p, im.(rules := im.rules - {ruleId}))
  {
    RemoveRuleEncoded(db, p, ruleId, im.rules);
    RemoveRuleApart(p, ruleId);
    PlainUntouched(db, RemoveRuleCommands(p, ruleId), p, im);
    Combine(Run(db, RemoveRuleCommands(p, ruleId)), p, im, im.rules - {ruleId});
  }

  lemma {:induction false} RemoveRuleApart(p: string, ruleId: string)
    ensures forall c, name :: c in RemoveRuleCommands(p, ruleId) && Outside(name) ==>
              SettingsKey(p, name) !in Written(c)
  {
    RuleKeyIsRuleKey(p, ruleId);
    forall name | Outside(name)
      ensures SettingsKey(p, name) != CustomRuleKey(p, ruleId) && SettingsKey(p, name) != CustomRulesSetKey(p)
    {
      OutsideRules(p, name);
    }
  }

  lemma {:induction false} FixedNames()
    ensures forall name :: name in FIXED_NAMES <==> name in SETTINGS_NAMES
  {
  }

  ghost predicate DeletedBy(cs: seq<Cmd>, k: string) {
    exists c :: c in cs && k in Written(c)
  }

  lemma {:induction false} DeletesEffect(db: Db, cs: seq<Cmd>, k: string)
    requires forall c :: c in cs ==> c.Del? && c.names != []
    ensures Run(db, cs).Peek(k) == if DeletedBy(cs, k) then None else db.Peek(k)
    decreases |cs|
  {
    if cs != [] {
      assert cs[0] in cs;
      DeletesEffect(Apply(db, cs[0]), cs[1..], k);
      assert DeletedBy(cs, k) <==> k in Written(cs[0]) || DeletedBy(cs[1..], k);
    }
  }

  /** Deletion removes the fixed keys, the listed hashes and the set; nothing else. */
  lemma {:induction false} DeleteEffect(db: Db, p: string, stored: seq<string>, k: string)
    ensures Run(db, DeleteCommands(p, stored)).Peek(k) ==
            if k in FixedKeys(p) || k in stored || k == CustomRulesSetKey(p) then None else db.Peek(k)
  {
    var cs := DeleteCommands(p, stored);
    DeletesEffect(db, cs, k);
    var fixed, index := Del(FixedKeys(p)), Del([CustomRulesSetKey(p)]);
    assert cs[0] == fixed && cs[|cs| - 1] == index;
    assert k in FixedKeys(p) ==> k in Written(fixed);
    assert k == CustomRulesSetKey(p) ==> k in Written(index);
    if k in stored {
      var i :| 0 <= i < |stored| && stored[i] == k;
      assert cs[i + 1] == Del([k]) && k in Written(cs[i + 1]);
    }
  }

  lemma {:induction false} FixedKeyNames(p: string, name: string)
    ensures SettingsKey(p, name) in FixedKeys(p) <==> name in SETTINGS_NAMES
  {
    FixedNames();
    if SettingsKey(p, name) in FixedKeys(p) {
      var i :| 0 <= i < |FIXED_NAMES| && FixedKeys(p)[i] == SettingsKey(p, name);
      SettingsNamesInjective(p, name, FIXED_NAMES[i]);
    }
    if name in FIXED_NAMES {
      var i :| 0 <= i < |FIXED_NAMES| && FIXED_NAMES[i] == name;
      assert FixedKeys(p)[i] == SettingsKey(p, name);
    }
  }

  lemma {:induction false} DeleteMeaning(db: Db, p: string, stored: seq<string>, im: Image)
    requires Encodes(db, p, im) && Lists(stored, Index(db, p))
    ensures Encodes(Run(db, DeleteCommands(p, stored)), p, EMPTY_IMAGE)
  {
    var cs := DeleteCommands(p, stored);
    var db' := Run(db, cs);
    ListsMembers(db, p, stored);
    DeleteRespects(p, stored);
    EffectsSound(db, p, cs);
    forall id ensures StatusOf(db', p, CustomRuleKey(p, id)) == RuleStatus(map[], id) {
      RuleKeyIsRuleKey(p, id);
      assert cs[..|cs|] == cs;
      DeletePrefixEffect(p, stored, |cs|, CustomRuleKey(p, id), StatusOf(db, p, CustomRuleKey(p, id)));
      assert StatusOf(db, p, CustomRuleKey(p, id)) == RuleStatus(im.rules, id);
    }
    forall name | Outside(name) ensures db'.Peek(SettingsKey(p, name)) == None {
      OutsideRules(p, name);
      DeleteEffect(db, p, stored, SettingsKey(p, name));
      FixedKeyNames(p, name);
    }
    forall l: ListName ensures Outside(l.Name()) {
      ListNameFacts(l);
    }
    forall name | name in HASH_NAMES ensures Outside(name) {
      SettingsNamesOutside(name);
    }
  }

  /** A command that writes one settings key leaves every other key of the profile alone. */
  lemma {:induction false} OneKey(db: Db, c: Cmd, p: string, name: string, rules: map<string, Rule>)
    requires name in SETTINGS_NAMES && Written(c) == {SettingsKey(p, name)} && RulesEncode(db, p, rules)
    ensures forall n :: n != name ==> Apply(db, c).Peek(SettingsKey(p, n)) == db.Peek(SettingsKey(p, n))
    ensures RulesEncode(Apply(db, c), p, rules)
  {
    forall n | n != name ensures Apply(db, c).Peek(SettingsKey(p, n)) == db.Peek(SettingsKey(p, n)) {
      SameKey(p, n, name);
      Frame(db, c, SettingsKey(p, n));
    }
    SettingsNamesOutside(name);
    OutsideRules(p, name);
    forall k | IsRuleKey(p, k) || k == CustomRulesSetKey(p) ensures Apply(db, c).Peek(k) == db.Peek(k) {
      Frame(db, c, k);
    }
    RulesFrame(db, Apply(db, c), p, rules);
  }

  lemma {:induction false} ListCommand(db: Db, db': Db, c: Cmd, p: string, im: Image, l: ListName, items: seq<string>,
                                       end: Image)
    requires Encodes(db, p, im) && Written(c) == {SettingsKey(p, l.Name())} && db' == Apply(db, c)
    requires db'.Peek(SettingsKey(p, l.Name())) == OfList(items) && end == WithList(im, l, items)
    ensures Encodes(db', p, end)
  {
    ListNameFacts(Blocklists);
    ListNameFacts(Services);
    OneKey(db, c, p, l.Name(), im.rules);
  }

  lemma {:induction false} WithSameList(im: Image, l: ListName, ids: seq<string>)
    requires ids == []
    ensures WithList(im, l, ListOf(im, l) + ids) == im
  {
    assert ListOf(im, l) + ids == ListOf(im, l);
  }

  lemma {:induction false} AppendMeaning(
      db: Db, db': Db, p: string, l: ListName, ids: seq<string>, im: Image, end: Image)
    requires Encodes(db, p, im) && db' == Run(db, AppendCommands(p, l.Name(), ids))
    requires end == WithList(im, l, ListOf(im, l) + ids)
    ensures Encodes(db', p, end)
  {
    if ids == [] {
      WithSameList(im, l, ids);
    } else {
      var c := RPush(SettingsKey(p, l.Name()), ids);
      assert Run(db, [c]) == Apply(db, c);
      ListCommand(db, db', c, p, im, l, ListOf(im, l) + ids, end);
    }
  }

  lemma {:induction false} RemoveMeaning(
      db: Db, db': Db, p: string, l: ListName, ids: seq<string>, im: Image, end: Image)
    requires Encodes(db, p, im) && db' == Run(db, RemoveCommands(p, l.Name(), ids))
    requires end == WithList(im, l, RemoveAll(ListOf(im, l), ids))
    ensures Encodes(db', p, end)
    decreases |ids|
  {
    if ids == [] {
      assert end == im;
    } else {
      var c, rest := LRem(SettingsKey(p, l.Name()), ids[0]), Without(ListOf(im, l), ids[0]);
      var mid, im' := Apply(db, c), WithList(im, l, rest);
      assert db.Peek(c.key) == OfList(ListOf(im, l));
      ListCommand(db, mid, c, p, im, l, rest, im');
      assert RemoveCommands(p, l.Name(), ids)[1..] == RemoveCommands(p, l.Name(), ids[1..]);
      RemoveMeaning(mid, db', p, l, ids[1..], im', end);
    }
  }

  lemma {:induction false} FieldValue(db: Db, key: string, f: SettingsField, hashes: map<string, FieldMap>)
    requires db.Peek(key) == HashCell(hashes, f.hash)
    ensures Apply(db, HSet(key, OneField(f))).Peek(key) == HashCell(SetField(hashes, f), f.hash)
  {
    var fs := db.Fields(key);
    assert fs == FieldsOf(hashes, f.hash);
    var merged := Overlay(fs, OneField(f));
    assert SetField(hashes, f)[f.hash] == merged;
  }

  lemma {:induction false} FieldCommand(db: Db, db': Db, p: string, f: SettingsField, im: Image, end: Image)
    requires Encodes(db, p, im) && f.hash in HASH_NAMES
    requires db' == Apply(db, HSet(SettingsKey(p, f.hash), OneField(f)))
    requires end == im.(hashes := SetField(im.hashes, f))
    ensures Encodes(db', p, end)
  {
    var c := HSet(SettingsKey(p, f.hash), OneField(f));
    FieldValue(db, c.key, f, im.hashes);
    HashCommand(db, db', c, p, im, f.hash, end);
  }

  lemma {:induction false} HashCommand(db: Db, db': Db, c: Cmd, p: string, im: Image, name: string, end: Image)
    requires Encodes(db, p, im) && name in HASH_NAMES && Written(c) == {SettingsKey(p, name)} && db' == Apply(db, c)
    requires end == im.(hashes := end.hashes) && db'.Peek(SettingsKey(p, name)) == HashCell(end.hashes, name)
    requires forall n :: n in HASH_NAMES && n != name ==> HashCell(end.hashes, n) == HashCell(im.hashes, n)
    ensures Encodes(db', p, end)
  {
    ListNameFacts(Blocklists);
    ListNameFacts(Services);
    OneKey(db, c, p, name, im.rules);
    assert db.Peek(SettingsKey(p, Blocklists.Name())) == OfList(ListOf(im, Blocklists));
    assert db.Peek(SettingsKey(p, Services.Name())) == OfList(ListOf(im, Services));
    ComposePlain(db', p, end);
  }

  lemma {:induction false} FirstWrite(db: Db, p: string, fields: seq<SettingsField>)
    requires fields != []
    ensures Run(db, FieldWrites(p, fields)) ==
            Run(Apply(db, HSet(SettingsKey(p, fields[0].hash), OneField(fields[0]))), FieldWrites(p, fields[1..]))
  {
    assert FieldWrites(p, fields)[1..] == FieldWrites(p, fields[1..]);
  }

  lemma {:induction false} FirstSet(im: Image, fields: seq<SettingsField>)
    requires fields != []
    ensures var im' := im.(hashes := SetField(im.hashes, fields[0]));
            im'.(hashes := SetFieldsIn(im'.hashes, fields[1..])) == im.(hashes := SetFieldsIn(im.hashes, fields))
  {
  }

  lemma {:induction false} FieldsMeaning(db: Db, db': Db, p: string, fields: seq<SettingsField>, im: Image, end: Image)
    requires Encodes(db, p, im) && forall f :: f in fields ==> f.hash in HASH_NAMES
    requires db' == Run(db, FieldWrites(p, fields)) && end == im.(hashes := SetFieldsIn(im.hashes, fields))
    ensures Encodes(db', p, end)
    decreases |fields|
  {
    if fields == [] {
      assert end == im;
    } else {
      var mid := Apply(db, HSet(SettingsKey(p, fields[0].hash), OneField(fields[0])));
      var im' := im.(hashes := SetField(im.hashes, fields[0]));
      FirstWrite(db, p, fields);
      FirstSet(im, fields);
      FieldCommand(db, mid, p, fields[0], im, im');
      FieldsMeaning(mid, db', p, fields[1..], im', end);
    }
  }

  /** Each completed operation does to the mirror what it means on the image. */
  lemma {:induction false} OpMeaning(db: Db, op: Op, im: Image)
    requires Encodes(db, op.Profile(), im) && Listed(db, op)
    ensures Encodes(Run(db, Commands(op)), op.Profile(), Meaning(im, op))
  {
    if op.Update? || op.AddRules? || op.RemoveRule? || op.DeleteProfile? {
      RuleOpMeaning(db, op, im);
    } else {
      PlainOpMeaning(db, op, im);
    }
  }

  lemma {:induction false} RuleOpMeaning(db: Db, op: Op, im: Image)
    requires op.Update? || op.AddRules? || op.RemoveRule? || op.DeleteProfile?
    requires Encodes(db, op.Profile(), im) && Listed(db, op)
    ensures Encodes(Run(db, Commands(op)), op.Profile(), Meaning(im, op))
  {
    match op
    case Update(st, stored) => UpdateMeaning(db, st, stored, im);
    case AddRules(p, rules) => AddMeaning(db, p, rules, im);
    case RemoveRule(p, ruleId) => RemoveRuleMeaning(db, p, ruleId, im);
    case DeleteProfile(p, stored) => DeleteMeaning(db, p, stored, im);
  }

  lemma {:induction false} PlainOpMeaning(db: Db, op: Op, im: Image)
    requires op.SetFields? || op.Append? || op.Remove?
    requires Encodes(db, op.Profile(), im) && Listed(db, op)
    ensures Encodes(Run(db, Commands(op)), op.Profile(), Meaning(im, op))
  {
    if op.SetFields? {
      FieldsOpMeaning(db, op, im);
    } else if op.Append? {
      AppendOpMeaning(db, op, im);
    } else {
      RemoveOpMeaning(db, op, im);
    }
  }

  lemma {:induction false} FieldsOpMeaning(db: Db, op: Op, im: Image)
    requires op.SetFields? && Encodes(db, op.Profile(), im) && Listed(db, op)
    ensures Encodes(Run(db, Commands(op)), op.Profile(), Meaning(im, op))
  {
    FieldsMeaning(db, Run(db, Commands(op)), op.Profile(), op.fields, im, Meaning(im, op));
  }

  lemma {:induction false} AppendOpMeaning(db: Db, op: Op, im: Image)
    requires op.Append? && Encodes(db, op.Profile(), im)
    ensures Encodes(Run(db, Commands(op)), op.Profile(), Meaning(im, op))
  {
    AppendMeaning(db, Run(db, Commands(op)), op.Profile(), op.l, op.ids, im, Meaning(im, op));
  }

  lemma {:induction false} RemoveOpMeaning(db: Db, op: Op, im: Image)
    requires op.Remove? && Encodes(db, op.Profile(), im)
    ensures Encodes(Run(db, Commands(op)), op.Profile(), Meaning(im, op))
  {
    RemoveMeaning(db, Run(db, Commands(op)), op.Profile(), op.l, op.ids, im, Meaning(im, op));
  }

  // ------------------------------------------------------------------ histories

  /** A command that writes keys of profile p only. */
  predicate Own(p: string, c: Cmd) {
    forall k :: k in Written(c) ==> HasPrefix(k, SettingsPrefix(p))
  }

  lemma {:induction false} OwnKeys(p: string)
    ensures forall name :: HasPrefix(SettingsKey(p, name), SettingsPrefix(p))
    ensures forall k :: IsRuleKey(p, k) ==> HasPrefix(k, SettingsPrefix(p))
    ensures forall k :: k in FixedKeys(p) ==> HasPrefix(k, SettingsPrefix(p))
  {
    forall k | IsRuleKey(p, k) ensures HasPrefix(k, SettingsPrefix(p)) {
      var name := RuleKeyIsSettingsKey(p, k);
    }
  }

  lemma {:induction false} UpdateOwn(st: Settings, stored: seq<string>)
    requires AllRuleKeys(st.profileId, stored)
    ensures forall c :: c in UpdateCommands(st, stored) ==> Own(st.profileId, c)
  {
    OwnKeys(st.profileId);
    RulesOwn(st.profileId, st.rules);
    forall c | c in SettingsWrites(st) ensures Own(st.profileId, c) {
      var name := SettingsWritesPlain(st, c);
    }
    var stale := Stale(stored, Elements(RuleKeys(st.profileId, st.rules)));
    forall c | c in StaleQueue(st.profileId, stale) ensures Own(st.profileId, c) {
      assert c == SRem(CustomRulesSetKey(st.profileId), stale) || c == Del(stale);
    }
  }

  lemma {:induction false} RulesOwn(p: string, rules: seq<Rule>)
    ensures forall c :: c in RulesQueue(p, rules) ==> Own(p, c)
  {
    OwnKeys(p);
  }

  lemma {:induction false} DeleteOwn(p: string, stored: seq<string>)
    requires AllRuleKeys(p, stored)
    ensures forall c :: c in DeleteCommands(p, stored) ==> Own(p, c)
  {
    OwnKeys(p);
    forall c | c in KeyDeletes(stored) ensures Own(p, c) {
      var i :| 0 <= i < |stored| && c == Del([stored[i]]);
      assert stored[i] in stored;
    }
  }

  /** An operation writes keys of its own profile only. */
  lemma {:induction false} OpOwn(db: Db, op: Op)
    requires Typed(db, op.Profile()) && Ready(db, op)
    ensures forall c :: c in Commands(op) ==> Own(op.Profile(), c)
  {
    OwnKeys(op.Profile());
    match op
    case Update(st, stored) => ListsMembers(db, st.profileId, stored); UpdateOwn(st, stored);
    case SetFields(p, fields) =>
    case AddRules(p, rules) => RulesOwn(p, rules);
    case RemoveRule(p, ruleId) =>
    case DeleteProfile(p, stored) => ListsMembers(db, p, stored); DeleteOwn(p, stored);
    case Append(p, l, ids) =>
    case Remove(p, l, ids) =>
  }

  lemma {:induction false} ForeignKey(p: string, q: string, name: string)
    requires ColonFree(p) && ColonFree(q) && p != q
    ensures !HasPrefix(SettingsKey(q, name), SettingsPrefix(p))
  {
    var k := SettingsKey(q, name);
    if HasPrefix(k, SettingsPrefix(p)) {
      var rest := k[|SettingsPrefix(p)|..];
      assert k == SettingsKey(p, rest);
      SettingsKeysInjective(p, rest, q, name);
    }
  }

  function ImageOf(images: map<string, Image>, p: string): Image {
    if p in images then images[p] else EMPTY_IMAGE
  }

  /** The keyspace encodes an image for every profile, the empty one where none is given. */
  ghost predicate Mirrors(db: Db, images: map<string, Image>) {
    forall p :: ColonFree(p) ==> Encodes(db, p, ImageOf(images, p))
  }

  function After(images: map<string, Image>, op: Op): map<string, Image> {
    images[op.Profile() := Meaning(ImageOf(images, op.Profile()), op)]
  }

  lemma {:induction false} OtherProfile(db: Db, cs: seq<Cmd>, p: string, q: string, im: Image)
    requires ColonFree(p) && ColonFree(q) && p != q && Encodes(db, q, im)
    requires forall c :: c in cs ==> Own(p, c)
    ensures Encodes(Run(db, cs), q, im)
  {
    forall c, name | c in cs ensures SettingsKey(q, name) !in Written(c) {
      ForeignKey(p, q, name);
    }
    EncodesFrame(db, cs, q, im);
  }

  lemma {:induction false} OpMirrors(db: Db, images: map<string, Image>, op: Op)
    requires Mirrors(db, images) && Ready(db, op)
    ensures Mirrors(Run(db, Commands(op)), After(images, op))
  {
    var p, cs := op.Profile(), Commands(op);
    OpMirrorsOwn(db, images, op);
    forall q | ColonFree(q) ensures Encodes(Run(db, cs), q, ImageOf(After(images, op), q)) {
      if q != p {
        assert ImageOf(After(images, op), q) == ImageOf(images, q);
        OtherProfile(db, cs, p, q, ImageOf(images, q));
      }
    }
  }

  lemma {:induction false} OpMirrorsOwn(db: Db, images: map<string, Image>, op: Op)
    requires Mirrors(db, images) && Ready(db, op)
    ensures Encodes(Run(db, Commands(op)), op.Profile(), ImageOf(After(images, op), op.Profile()))
    ensures forall c :: c in Commands(op) ==> Own(op.Profile(), c)
  {
    OpMeaning(db, op, ImageOf(images, op.Profile()));
    OpOwn(db, op);
  }

  predicate AllReady(db: Db, ops: seq<Op>)
    decreases |ops|
  {
    ops == [] || (Ready(db, ops[0]) && AllReady(Run(db, Commands(ops[0])), ops[1..]))
  }

  function RunAll(db: Db, ops: seq<Op>): Db
    decreases |ops|
  {
    if ops == [] then db else RunAll(Run(db, Commands(ops[0])), ops[1..])
  }

  function AfterAll(images: map<string, Image>, ops: seq<Op>): map<string, Image>
    decreases |ops|
  {
    if ops == [] then images else AfterAll(After(images, ops[0]), ops[1..])
  }

  /**
   * After any history of completed operations on any profiles, the keys of every profile are
   * exactly those of its image.
   */
  lemma {:induction false} HistoryMirrors(db: Db, images: map<string, Image>, ops: seq<Op>)
    requires Mirrors(db, images) && AllReady(db, ops)
    ensures Mirrors(RunAll(db, ops), AfterAll(images, ops))
    decreases |ops|
  {
    if ops != [] {
      OpMirrors(db, images, ops[0]);
      HistoryMirrors(Run(db, Commands(ops[0])), After(images, ops[0]), ops[1..]);
    }
  }

  lemma {:induction false} NoSettingsMirrorsNothing(db: Db)
    requires forall k :: k in db.keys ==> !HasPrefix(k, "settings:")
    ensures Mirrors(db, map[])
  {
    forall p, name ensures SettingsKey(p, name) !in db.keys {
      assert SettingsKey(p, name) == "settings:" + (p + ":" + name);
    }
    forall p, k | IsRuleKey(p, k) ensures k !in db.keys {
      var name := RuleKeyIsSettingsKey(p, k);
    }
    forall p, id ensures StatusOf(db, p, CustomRuleKey(p, id)) == RuleStatus(map[], id) {
      assert CustomRuleKey(p, id) !in db.keys;
    }
  }

  lemma {:induction false} AgreeAt(db: Db, p: string, rules: map<string, Rule>, k: string)
    requires RulesEncode(db, p, rules) && IsRuleKey(p, k)
    ensures k in Index(db, p) <==> db.Fields(k) != map[]
  {
    var id := k[|CustomRuleKey(p, "")|..];
    assert k == CustomRuleKey(p, "") + id == CustomRuleKey(p, id);
    assert StatusOf(db, p, k) == RuleStatus(rules, id);
    if id in rules {
      HashOverwrites(map[], rules[id]);
    }
  }

  /** At rest the set of rule keys and the rule hashes agree, for every profile. */
  lemma {:induction false} AgreeAtRest(db: Db, images: map<string, Image>, p: string)
    requires Mirrors(db, images) && ColonFree(p)
    ensures NoDangling(db, p) && NoOrphan(db, p)
  {
    var rules := ImageOf(images, p).rules;
    assert RulesEncode(db, p, rules);
    forall k | IsRuleKey(p, k) ensures k in Index(db, p) <==> db.Fields(k) != map[] {
      AgreeAt(db, p, rules, k);
    }
  }

  // ------------------------------------------------------------------ lists as sets

  /** The elements that are not in ids, in their order. */
  function Keep(items: seq<string>, ids: set<string>): seq<string> {
    if items == [] then []
    else (if items[0] in ids then [] else [items[0]]) + Keep(items[1..], ids)
  }

  lemma {:induction false} KeepWithout(items: seq<string>, x: string, ids: set<string>)
    ensures Keep(Without(items, x), ids) == Keep(items, ids + {x})
  {
    if items != [] {
      KeepWithout(items[1..], x, ids);
      var rest := Without(items[1..], x);
      if items[0] != x {
        assert ([items[0]] + rest)[1..] == rest;
      } else {
        assert [] + rest == rest;
      }
    }
  }

  lemma {:induction false} KeepAll(items: seq<string>)
    ensures Keep(items, {}) == items
  {
    if items != [] {
      KeepAll(items[1..]);
    }
  }

  /** The LREM loop is an order-preserving filter: only the set of ids matters, not their order. */
  lemma {:induction false} RemoveAllIsFilter(items: seq<string>, ids: seq<string>)
    ensures RemoveAll(items, ids) == Keep(items, Elements(ids))
    decreases |ids|
  {
    if ids == [] {
      KeepAll(items);
      assert Elements(ids) == {};
    } else {
      RemoveAllIsFilter(Without(items, ids[0]), ids[1..]);
      KeepWithout(items, ids[0], Elements(ids[1..]));
      assert Elements(ids) == Elements(ids[1..]) + {ids[0]};
    }
  }

  lemma {:induction false} KeepMembers(items: seq<string>, ids: set<string>)
    ensures Elements(Keep(items, ids)) == Elements(items) - ids
  {
    if items != [] {
      KeepMembers(items[1..], ids);
      assert Elements(items) == {items[0]} + Elements(items[1..]);
      var rest := Keep(items[1..], ids);
      assert Elements([items[0]] + rest) == {items[0]} + Elements(rest);
      assert [] + rest == rest;
    }
  }

  /** The set a history of appends and removals of list l of profile p denotes. */
  function SetHistory(s: set<string>, p: string, l: ListName, ops: seq<Op>): set<string>
    decreases |ops|
  {
    if ops == [] then s
    else
      var op := ops[0];
      var s' :=
        if op.Profile() != p then s
        else match op
          case Update(st, _) => Elements(ListIds(st, l))
          case DeleteProfile(_, _) => {}
          case Append(_, m, ids) => if m == l then s + Elements(ids) else s
          case Remove(_, m, ids) => if m == l then s - Elements(ids) else s
          case _ => s;
      SetHistory(s', p, l, ops[1..])
  }

  lemma {:induction false} MeaningMembers(im: Image, op: Op, l: ListName)
    ensures Elements(ListOf(Meaning(im, op), l)) == SetHistory(Elements(ListOf(im, l)), op.Profile(), l, [op])
  {
    match op
    case Append(_, m, ids) =>
      assert Elements(ListOf(im, m) + ids) == Elements(ListOf(im, m)) + Elements(ids);
    case Remove(_, m, ids) =>
      RemoveAllIsFilter(ListOf(im, m), ids);
      KeepMembers(ListOf(im, m), Elements(ids));
    case _ =>
  }

  /** Despite duplicates, membership in a stored list follows add-all and remove-all over any history. */
  lemma {:induction false} ListsRefineSets(images: map<string, Image>, ops: seq<Op>, p: string, l: ListName)
    ensures Elements(ListOf(ImageOf(AfterAll(images, ops), p), l)) ==
            SetHistory(Elements(ListOf(ImageOf(images, p), l)), p, l, ops)
    decreases |ops|
  {
    if ops != [] {
      MeaningMembers(ImageOf(images, ops[0].Profile()), ops[0], l);
      ListsRefineSets(After(images, ops[0]), ops[1..], p, l);
    }
  }

  /** On the keyspace: membership in the stored list itself follows the set history. */
  lemma {:induction false} StoredListsRefineSets(db: Db, ops: seq<Op>, p: string, l: ListName)
    requires forall k :: k in db.keys ==> !HasPrefix(k, "settings:")
    requires AllReady(db, ops) && ColonFree(p)
    ensures Elements(RunAll(db, ops).Items(SettingsKey(p, l.Name()))) == SetHistory({}, p, l, ops)
  {
    NoSettingsMirrorsNothing(db);
    HistoryMirrors(db, map[], ops);
    ListsRefineSets(map[], ops, p, l);
    var end, im := RunAll(db, ops), ImageOf(AfterAll(map[], ops), p);
    assert PlainEncodes(end, p, im);
    assert end.Peek(SettingsKey(p, l.Name())) == OfList(ListOf(im, l));
    assert ListOf(EMPTY_IMAGE, l) == [] && Elements([]) == {};
  }
}
