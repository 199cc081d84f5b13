/**
 * The stored form of a plain image of a profile's settings, and what a completed update makes of
 * whatever was stored before.
 */
module SettingsMirror {
  import opened Wrappers
  import opened Text
  import opened Redis
  import opened Keys
  import opened ProfileSettings
  import opened CustomRules
  import opened RuleConcurrency

  /** What is mirrored of a profile; rules are keyed by id. */
  datatype Image = Image(blocklists: seq<string>, services: seq<string>,
                         hashes: map<string, FieldMap>, rules: map<string, Rule>)

  const EMPTY_IMAGE := Image([], [], map[], map[])

  datatype ListName = Blocklists | Services {
    function Name(): string {
      match this
      case Blocklists => "blocklists"
      case Services => "services"
    }
  }

  function ListOf(im: Image, l: ListName): seq<string> {
    match l
    case Blocklists => im.blocklists
    case Services => im.services
  }

  function WithList(im: Image, l: ListName, items: seq<string>): Image {
    match l
    case Blocklists => im.(blocklists := items)
    case Services => im.(services := items)
  }

  function HashCell(hashes: map<string, FieldMap>, name: string): Option<Value> {
    if name in hashes then Some(Hash(hashes[name])) else None
  }

  function RuleStatus(rules: map<string, Rule>, id: string): Status {
    if id in rules then Status(true, rules[id].Hash()) else Status(false, map[])
  }

  /** The lists and settings hashes of the image, and no other key outside the rules. */
  ghost predicate PlainEncodes(db: Db, profileId: string, im: Image) {
    && (forall l: ListName :: db.Peek(SettingsKey(profileId, l.Name())) == OfList(ListOf(im, l)))
    && (forall name :: name in HASH_NAMES ==>
          db.Peek(SettingsKey(profileId, name)) == HashCell(im.hashes, name))
    && (forall name :: Outside(name) && name !in SETTINGS_NAMES ==>
          db.Peek(SettingsKey(profileId, name)) == None)
  }

  ghost predicate RulesEncode(db: Db, profileId: string, rules: map<string, Rule>) {
    && Typed(db, profileId)
    && (forall id :: StatusOf(db, profileId, CustomRuleKey(profileId, id)) == RuleStatus(rules, id))
  }

  /** Every key with the profile's prefix is determined by the image. */
  ghost predicate Encodes(db: Db, profileId: string, im: Image) {
    PlainEncodes(db, profileId, im) && RulesEncode(db, profileId, im.rules)
  }

  // ------------------------------------------------------------------ the pieces of an update

  lemma {:induction false} PushesEffect(db: Db, key: string, items: seq<string>, ids: seq<string>)
    requires db.Peek(key) == OfList(items)
    ensures Run(db, Pushes(key, ids)).Peek(key) == OfList(items + ids)
    decreases |ids|
  {
    if ids == [] {
      assert items + ids == items;
    } else {
      var db' := Apply(db, RPush(key, [ids[0]]));
      assert Pushes(key, ids)[1..] == Pushes(key, ids[1..]);
      assert items + ids == (items + [ids[0]]) + ids[1..];
      PushesEffect(db', key, items + [ids[0]], ids[1..]);
    }
  }

  /** A list is rewritten in the given order, duplicates and all, whatever was there before. */
  lemma {:induction false} ListWritesEffect(db: Db, key: string, ids: seq<string>)
    ensures Run(db, ListWrites(key, ids)).Peek(key) == OfList(ids)
    ensures forall k :: k != key ==> Run(db, ListWrites(key, ids)).Peek(k) == db.Peek(k)
  {
    var del := Del([key]);
    RunSplit(db, [del], Pushes(key, ids));
    assert Run(db, [del]) == Apply(db, del);
    PushesEffect(Apply(db, del), key, [], ids);
    assert [] + ids == ids;
    forall k | k != key ensures Run(db, ListWrites(key, ids)).Peek(k) == db.Peek(k) {
      RunFrame(db, ListWrites(key, ids), k);
    }
  }

  ghost predicate HashesTyped(db: Db, profileId: string) {
    forall name :: name in HASH_NAMES ==>
      var v := db.Peek(SettingsKey(profileId, name));
      v.None? || v.value.Hash?
  }

  lemma {:induction false} HashOrderDistinct(i: nat, j: nat)
    requires i < j < |HASH_ORDER|
    ensures HASH_ORDER[i] != HASH_ORDER[j]
  {
  }

  lemma {:induction false} SameKey(profileId: string, x: string, y: string)
    requires x != y
    ensures SettingsKey(profileId, x) != SettingsKey(profileId, y)
  {
    SettingsNamesInjective(profileId, x, y);
  }

  /** A hash that one command of a pipeline writes is overlaid with that command's fields. */
  lemma {:induction false} OnlyWriter(db: Db, cs: seq<Cmd>, i: nat)
    requires i < |cs| && cs[i].HSet? && |cs[i].fields| > 0
    requires cs[i].key in db.keys ==> db.keys[cs[i].key].Hash?
    requires forall j :: 0 <= j < |cs| && j != i ==> cs[i].key !in Written(cs[j])
    ensures Run(db, cs).Peek(cs[i].key) == Some(Hash(db.Fields(cs[i].key) + cs[i].fields))
  {
    var c := cs[i];
    assert cs == cs[..i] + cs[i..];
    RunSplit(db, cs[..i], cs[i..]);
    RunFrame(db, cs[..i], c.key);
    var mid := Run(db, cs[..i]);
    assert mid.Peek(c.key) == db.Peek(c.key);
    assert cs[i..][1..] == cs[i + 1..];
    RunFrame(Apply(mid, c), cs[i + 1..], c.key);
  }

  /** A completed update overlays each settings hash with the struct that belongs to it. */
  lemma {:induction false} HashWriteEffect(db: Db, st: Settings, name: string)
    requires HashesTyped(db, st.profileId) && name in HASH_NAMES
    ensures var key := SettingsKey(st.profileId, name);
            Run(db, HashWrites(st)).Peek(key) == Some(Hash(db.Fields(key) + HashesOf(st)[name]))
  {
    var cs := HashWrites(st);
    var i :| 0 <= i < |HASH_ORDER| && HASH_ORDER[i] == name;
    forall j | 0 <= j < |cs| && j != i ensures cs[i].key !in Written(cs[j]) {
      if i < j {
        HashOrderDistinct(i, j);
      } else {
        HashOrderDistinct(j, i);
      }
      SameKey(st.profileId, HASH_ORDER[i], HASH_ORDER[j]);
    }
    OnlyWriter(db, cs, i);
  }

  lemma {:induction false} HashWritesFrame(db: Db, st: Settings, k: string)
    requires forall name :: name in HASH_NAMES ==> k != SettingsKey(st.profileId, name)
    ensures Run(db, HashWrites(st)).Peek(k) == db.Peek(k)
  {
    forall c | c in HashWrites(st) ensures k !in Written(c) {
      var name := HashWritesPlain(st, c);
    }
    RunFrame(db, HashWrites(st), k);
  }

  lemma {:induction false} ListNameFacts(l: ListName)
    ensures l.Name() in SETTINGS_NAMES && l.Name() !in HASH_NAMES && Outside(l.Name())
    ensures Blocklists.Name() != Services.Name()
  {
    SettingsNamesOutside(l.Name());
  }

  function ListIds(st: Settings, l: ListName): seq<string> {
    match l
    case Blocklists => st.blocklists
    case Services => st.services
  }

  lemma {:induction false} SettingsListEffect(db: Db, st: Settings, l: ListName)
    ensures Run(db, SettingsWrites(st)).Peek(SettingsKey(st.profileId, l.Name())) == OfList(ListIds(st, l))
  {
    var p := st.profileId;
    var key := SettingsKey(p, l.Name());
    var a := ListWrites(SettingsKey(p, "blocklists"), st.blocklists);
    var b := ListWrites(SettingsKey(p, "services"), st.services);
    RunSplit(db, a + b, HashWrites(st));
    RunSplit(db, a, b);
    ListWritesEffect(db, SettingsKey(p, "blocklists"), st.blocklists);
    ListWritesEffect(Run(db, a), SettingsKey(p, "services"), st.services);
    ListNameFacts(l);
    SameKey(p, "blocklists", "services");
    forall name | name in HASH_NAMES ensures key != SettingsKey(p, name) {
      SameKey(p, l.Name(), name);
    }
    HashWritesFrame(Run(db, a + b), st, key);
  }

  lemma {:induction false} SettingsHashEffect(db: Db, st: Settings, name: string)
    requires HashesTyped(db, st.profileId) && name in HASH_NAMES
    ensures var key := SettingsKey(st.profileId, name);
            Run(db, SettingsWrites(st)).Peek(key) == Some(Hash(db.Fields(key) + HashesOf(st)[name]))
  {
    var p := st.profileId;
    var a := ListWrites(SettingsKey(p, "blocklists"), st.blocklists);
    var b := ListWrites(SettingsKey(p, "services"), st.services);
    RunSplit(db, a + b, HashWrites(st));
    RunSplit(db, a, b);
    ListWritesEffect(db, SettingsKey(p, "blocklists"), st.blocklists);
    ListWritesEffect(Run(db, a), SettingsKey(p, "services"), st.services);
    ListNameFacts(Blocklists);
    ListNameFacts(Services);
    var mid := Run(db, a + b);
    forall n | n in HASH_NAMES ensures mid.Peek(SettingsKey(p, n)) == db.Peek(SettingsKey(p, n)) {
      SameKey(p, n, "blocklists");
      SameKey(p, n, "services");
    }
    HashWriteEffect(mid, st, name);
  }

  lemma {:induction false} SettingsWritesFrame(db: Db, st: Settings, k: string)
    requires forall name :: name in SETTINGS_NAMES ==> k != SettingsKey(st.profileId, name)
    ensures Run(db, SettingsWrites(st)).Peek(k) == db.Peek(k)
  {
    forall c | c in SettingsWrites(st) ensures k !in Written(c) {
      var name := SettingsWritesPlain(st, c);
    }
    RunFrame(db, SettingsWrites(st), k);
  }

  lemma {:induction false} RulesQueueFrame(db: Db, profileId: string, rules: seq<Rule>, k: string)
    requires !IsRuleKey(profileId, k) && k != CustomRulesSetKey(profileId)
    ensures Run(db, RulesQueue(profileId, rules)).Peek(k) == db.Peek(k)
  {
    forall c | c in RulesQueue(profileId, rules) ensures k !in Written(c) {
      if c in RuleWrites(profileId, rules) {
        var i :| 0 <= i < |rules| && c == HSet(CustomRuleKey(profileId, rules[i].id), rules[i].Hash());
        RuleKeyIsRuleKey(profileId, rules[i].id);
      }
    }
    RunFrame(db, RulesQueue(profileId, rules), k);
  }

  lemma {:induction false} ReplaceFrame(db: Db, profileId: string, rules: seq<Rule>, stored: seq<string>, k: string)
    requires !IsRuleKey(profileId, k) && k != CustomRulesSetKey(profileId) && AllRuleKeys(profileId, stored)
    ensures Run(db, ReplaceQueue(profileId, rules, stored)).Peek(k) == db.Peek(k)
  {
    var q := StaleQueue(profileId, Stale(stored, Elements(RuleKeys(profileId, rules))));
    RunSplit(db, RulesQueue(profileId, rules), q);
    RulesQueueFrame(db, profileId, rules, k);
    RunFrame(Run(db, RulesQueue(profileId, rules)), q, k);
  }

  /** A key that is neither a settings key nor a rule key of the profile. */
  ghost predicate Unrelated(profileId: string, k: string) {
    && !IsRuleKey(profileId, k) && k != CustomRulesSetKey(profileId)
    && forall name :: name in SETTINGS_NAMES ==> k != SettingsKey(profileId, name)
  }

  lemma {:induction false} UpdateSplit(db: Db, st: Settings, stored: seq<string>, k: string)
    requires AllRuleKeys(st.profileId, stored) && !IsRuleKey(st.profileId, k) && k != CustomRulesSetKey(st.profileId)
    ensures Run(db, UpdateCommands(st, stored)).Peek(k) == Run(db, SettingsWrites(st)).Peek(k)
  {
    RunSplit(db, SettingsWrites(st), ReplaceQueue(st.profileId, st.rules, stored));
    ReplaceFrame(Run(db, SettingsWrites(st)), st.profileId, st.rules, stored, k);
  }

  /**
   * A completed CreateOrUpdateProfileSettings is an assignment, from any state whose rule keys and
   * settings hashes have the right kinds of value (dangling members and orphaned hashes
   * included): the set lists exactly the wanted rules, each hash is its last rule's, what the set
   * listed before and is not wanted is gone, both lists are rewritten in order, every settings
   * hash is overlaid, and nothing else changes.
   */
  lemma {:induction false} UpdateFromAnyState(db: Db, st: Settings, stored: seq<string>)
    requires Typed(db, st.profileId) && HashesTyped(db, st.profileId)
    requires Lists(stored, Index(db, st.profileId))
    ensures var p := st.profileId;
            var db' := Run(db, UpdateCommands(st, stored));
            && Typed(db', p) && Index(db', p) == Elements(RuleKeys(p, st.rules))
            && (forall k :: IsRuleKey(p, k) ==>
                  db'.Fields(k) == match LastRule(p, st.rules, k)
                                   case Some(r) => r.Hash()
                                   case None => if k in Index(db, p) then map[] else db.Fields(k))
            && (forall l: ListName :: db'.Peek(SettingsKey(p, l.Name())) == OfList(ListIds(st, l)))
            && (forall name :: name in HASH_NAMES ==>
                  db'.Peek(SettingsKey(p, name)) == Some(Hash(db.Fields(SettingsKey(p, name)) + HashesOf(st)[name])))
            && (forall k :: Unrelated(p, k) ==> db'.Peek(k) == db.Peek(k))
  {
    var p := st.profileId;
    var db' := Run(db, UpdateCommands(st, stored));
    ListsMembers(db, p, stored);
    UpdateRespects(st, stored);
    EffectsSound(db, p, UpdateCommands(st, stored));
    forall k | IsRuleKey(p, k)
      ensures StatusOf(db', p, k) == match LastRule(p, st.rules, k)
                                     case Some(r) => Status(true, r.Hash())
                                     case None => if k in Index(db, p) then Status(false, map[]) else StatusOf(db, p, k)
    {
      UpdateEffect(st, stored, k, StatusOf(db, p, k));
    }
    IndexIsWanted(db', p, st.rules);
    forall l: ListName ensures db'.Peek(SettingsKey(p, l.Name())) == OfList(ListIds(st, l)) {
      ListNameFacts(l);
      OutsideRules(p, l.Name());
      UpdateSplit(db, st, stored, SettingsKey(p, l.Name()));
      SettingsListEffect(db, st, l);
    }
    forall name | name in HASH_NAMES
      ensures db'.Peek(SettingsKey(p, name)) == Some(Hash(db.Fields(SettingsKey(p, name)) + HashesOf(st)[name]))
    {
      SettingsNamesOutside(name);
      OutsideRules(p, name);
      UpdateSplit(db, st, stored, SettingsKey(p, name));
      SettingsHashEffect(db, st, name);
    }
    forall k | Unrelated(p, k) ensures db'.Peek(k) == db.Peek(k) {
      UpdateSplit(db, st, stored, k);
      SettingsWritesFrame(db, st, k);
    }
  }

  lemma {:induction false} IndexIsWanted(db: Db, profileId: string, rules: seq<Rule>)
    requires Typed(db, profileId)
    requires forall k :: IsRuleKey(profileId, k) ==>
               (k in Index(db, profileId) <==> LastRule(profileId, rules, k).Some?)
    ensures Index(db, profileId) == Elements(RuleKeys(profileId, rules))
  {
    WantedAreRuleKeys(profileId, rules);
    forall k ensures k in Index(db, profileId) <==> k in RuleKeys(profileId, rules) {
      WantedRule(profileId, rules, k);
    }
  }
}
