/**
 * Two updates of one profile whose pipelines overlap: when a list ends as one caller wrote it, and
 * what becomes of the rules.
 */
module OverlappingUpdates {
  import opened Wrappers
  import opened Redis
  import opened Keys
  import opened ProfileSettings
  import opened CustomRules
  import opened RuleConcurrency
  import opened SettingsMirror

  /** A command of the first or of the second update. */
  datatype Sent = Sent(first: bool, cmd: Cmd)

  /** The commands in the order in which the server meets them. */
  function All(ts: seq<Sent>): (cs: seq<Cmd>)
    ensures |cs| == |ts| && forall i :: 0 <= i < |ts| ==> cs[i] == ts[i].cmd
  {
    if ts == [] then [] else [ts[0].cmd] + All(ts[1..])
  }

  /** The commands of one of the two. */
  function Of(ts: seq<Sent>, first: bool): seq<Cmd> {
    if ts == [] then [] else (if ts[0].first == first then [ts[0].cmd] else []) + Of(ts[1..], first)
  }

  /** The commands that write a key. */
  function On(ts: seq<Sent>, key: string): seq<Sent> {
    if ts == [] then [] else (if key in Written(ts[0].cmd) then [ts[0]] else []) + On(ts[1..], key)
  }

  function OnKey(cs: seq<Cmd>, key: string): seq<Cmd> {
    if cs == [] then [] else (if key in Written(cs[0]) then [cs[0]] else []) + OnKey(cs[1..], key)
  }

  lemma {:induction false} OfCons(t: Sent, ts: seq<Sent>, first: bool)
    ensures Of([t] + ts, first) == (if t.first == first then [t.cmd] else []) + Of(ts, first)
    ensures All([t] + ts) == [t.cmd] + All(ts)
  {
    assert ([t] + ts)[1..] == ts;
  }

  lemma {:induction false} OnKeyCons(c: Cmd, cs: seq<Cmd>, key: string)
    ensures OnKey([c] + cs, key) == (if key in Written(c) then [c] else []) + OnKey(cs, key)
  {
    assert ([c] + cs)[1..] == cs;
  }

  lemma {:induction false} Nothing<T>(xs: seq<T>)
    ensures [] + xs == xs
  {
  }

  lemma {:induction false} OfOn(ts: seq<Sent>, first: bool, key: string)
    ensures Of(On(ts, key), first) == OnKey(Of(ts, first), key)
  {
    if ts != [] {
      var t, on, of := ts[0], On(ts[1..], key), Of(ts[1..], first);
      OfOn(ts[1..], first, key);
      OfCons(t, on, first);
      OnKeyCons(t.cmd, of, key);
      Nothing(on);
      Nothing(of);
      Nothing(OnKey(of, key));
    }
  }

  lemma {:induction false} OfConcat(a: seq<Sent>, b: seq<Sent>, first: bool)
    ensures Of(a + b, first) == Of(a, first) + Of(b, first)
    decreases |a|
  {
    if a == [] {
      Nothing(b);
      Nothing(Of(b, first));
    } else {
      assert a + b == [a[0]] + (a[1..] + b);
      OfConcat(a[1..], b, first);
      OfCons(a[0], a[1..] + b, first);
    }
  }

  lemma {:induction false} OnKeyConcat(a: seq<Cmd>, b: seq<Cmd>, key: string)
    ensures OnKey(a + b, key) == OnKey(a, key) + OnKey(b, key)
    decreases |a|
  {
    if a == [] {
      assert a + b == b;
    } else {
      assert (a + b)[1..] == a[1..] + b;
      OnKeyConcat(a[1..], b, key);
    }
  }

  lemma {:induction false} OnKeyNone(cs: seq<Cmd>, key: string)
    requires forall c :: c in cs ==> key !in Written(c)
    ensures OnKey(cs, key) == []
    decreases |cs|
  {
    if cs != [] {
      OnKeyNone(cs[1..], key);
    }
  }

  lemma {:induction false} OnKeyAll(cs: seq<Cmd>, key: string)
    requires forall c :: c in cs ==> key in Written(c)
    ensures OnKey(cs, key) == cs
    decreases |cs|
  {
    if cs != [] {
      OnKeyAll(cs[1..], key);
    }
  }

  // ------------------------------------------------------------------ a key depends on its commands only

  /** What a plain write leaves under its key depends on that key alone. */
  lemma {:induction false} WriteIsLocal(db: Db, db': Db, c: Cmd, key: string)
    requires (c.Del? || c.RPush? || c.HSet?) && db.Peek(key) == db'.Peek(key)
    ensures Apply(db, c).Peek(key) == Apply(db', c).Peek(key)
  {
    assert key in db.keys <==> key in db'.keys;
    if key !in Written(c) {
      Frame(db, c, key);
      Frame(db', c, key);
    }
  }

  lemma {:induction false} RunIsLocal(db: Db, db': Db, ts: seq<Sent>, key: string)
    requires forall t :: t in ts && key in Written(t.cmd) ==> t.cmd.Del? || t.cmd.RPush? || t.cmd.HSet?
    requires db.Peek(key) == db'.Peek(key)
    ensures Run(db, All(ts)).Peek(key) == Run(db', All(On(ts, key))).Peek(key)
    decreases |ts|
  {
    if ts != [] {
      var c, rest := ts[0].cmd, On(ts[1..], key);
      assert ts[0] in ts;
      assert All(ts)[0] == c && All(ts)[1..] == All(ts[1..]);
      if key in Written(c) {
        assert ([ts[0]] + rest)[1..] == rest;
        assert All([ts[0]] + rest)[0] == c && All([ts[0]] + rest)[1..] == All(rest);
        WriteIsLocal(db, db', c, key);
        RunIsLocal(Apply(db, c), Apply(db', c), ts[1..], key);
      } else {
        Frame(db, c, key);
        Nothing(rest);
        RunIsLocal(Apply(db, c), db', ts[1..], key);
      }
    }
  }

  // ------------------------------------------------------------------ lists

  /** Of the two rewritings, only the one of the list itself writes its key. */
  lemma {:induction false} OneListOnly(st: Settings, l: ListName)
    ensures var key := SettingsKey(st.profileId, l.Name());
            OnKey(ListWrites(SettingsKey(st.profileId, "blocklists"), st.blocklists), key)
            + OnKey(ListWrites(SettingsKey(st.profileId, "services"), st.services), key)
            == ListWrites(key, ListIds(st, l))
  {
    var blocklists, services := SettingsKey(st.profileId, "blocklists"), SettingsKey(st.profileId, "services");
    SameKey(st.profileId, "blocklists", "services");
    match l
    case Blocklists =>
      OwnAndOther(blocklists, st.blocklists, services, st.services);
    case Services =>
      OwnAndOther(services, st.services, blocklists, st.blocklists);
  }

  lemma {:induction false} OwnAndOther(key: string, ids: seq<string>, other: string, others: seq<string>)
    requires key != other
    ensures OnKey(ListWrites(key, ids), key) == ListWrites(key, ids) && OnKey(ListWrites(other, others), key) == []
    ensures [] + ListWrites(key, ids) == ListWrites(key, ids) == ListWrites(key, ids) + []
  {
    OnKeyAll(ListWrites(key, ids), key);
    OnKeyNone(ListWrites(other, others), key);
  }

  /** Of an update, only the rewriting of a list writes its key. */
  lemma {:induction false} ListCommandsOnly(st: Settings, stored: seq<string>, l: ListName)
    requires AllRuleKeys(st.profileId, stored)
    ensures OnKey(UpdateCommands(st, stored), SettingsKey(st.profileId, l.Name())) ==
            ListWrites(SettingsKey(st.profileId, l.Name()), ListIds(st, l))
  {
    var p, key := st.profileId, SettingsKey(st.profileId, l.Name());
    var blocklists := ListWrites(SettingsKey(p, "blocklists"), st.blocklists);
    var services := ListWrites(SettingsKey(p, "services"), st.services);
    OnKeyConcat(SettingsWrites(st), ReplaceQueue(p, st.rules, stored), key);
    OnKeyConcat(blocklists + services, HashWrites(st), key);
    OnKeyConcat(blocklists, services, key);
    OneListOnly(st, l);
    RulesSpareLists(st, stored, l);
    HashesSpareLists(st, l);
  }

  lemma {:induction false} HashesSpareLists(st: Settings, l: ListName)
    ensures OnKey(HashWrites(st), SettingsKey(st.profileId, l.Name())) == []
  {
    var key := SettingsKey(st.profileId, l.Name());
    ListNameFacts(l);
    forall c | c in HashWrites(st) ensures key !in Written(c) {
      var name := HashWritesPlain(st, c);
      SameKey(st.profileId, l.Name(), name);
    }
    OnKeyNone(HashWrites(st), key);
  }

  lemma {:induction false} RulesSpareLists(st: Settings, stored: seq<string>, l: ListName)
    requires AllRuleKeys(st.profileId, stored)
    ensures OnKey(ReplaceQueue(st.profileId, st.rules, stored), SettingsKey(st.profileId, l.Name())) == []
  {
    var p, key := st.profileId, SettingsKey(st.profileId, l.Name());
    ListNameFacts(l);
    OutsideRules(p, l.Name());
    var stale := Stale(stored, Elements(RuleKeys(p, st.rules)));
    forall c | c in ReplaceQueue(p, st.rules, stored) ensures key !in Written(c) {
      if c in RuleWrites(p, st.rules) {
        var i :| 0 <= i < |st.rules| && c == HSet(CustomRuleKey(p, st.rules[i].id), st.rules[i].Hash());
        RuleKeyIsRuleKey(p, st.rules[i].id);
      }
    }
    OnKeyNone(ReplaceQueue(p, st.rules, stored), key);
  }

  /** What the pushes in cs append. */
  function Pushed(cs: seq<Cmd>): seq<string>
    requires forall c :: c in cs ==> c.RPush? && |c.values| == 1
  {
    if cs == [] then [] else cs[0].values + Pushed(cs[1..])
  }

  lemma {:induction false} PushesAppend(db: Db, key: string, items: seq<string>, cs: seq<Cmd>)
    requires forall c :: c in cs ==> c.RPush? && |c.values| == 1 && c.key == key
    requires db.Peek(key) == OfList(items)
    ensures Run(db, cs).Peek(key) == OfList(items + Pushed(cs))
    ensures |Pushed(cs)| == |cs|
    decreases |cs|
  {
    if cs == [] {
      assert items + Pushed(cs) == items;
    } else {
      assert cs[0] in cs;
      assert items + Pushed(cs) == (items + cs[0].values) + Pushed(cs[1..]);
      PushesAppend(Apply(db, cs[0]), key, items + cs[0].values, cs[1..]);
    }
  }

  lemma {:induction false} PushedBack(key: string, ids: seq<string>)
    ensures Pushed(Pushes(key, ids)) == ids
    decreases |ids|
  {
    if ids != [] {
      assert Pushes(key, ids)[1..] == Pushes(key, ids[1..]);
      PushedBack(key, ids[1..]);
    }
  }

  lemma {:induction false} OnlyOne(ts: seq<Sent>, first: bool)
    ensures |Of(ts, first)| + |Of(ts, !first)| == |ts|
    ensures (forall t :: t in ts ==> t.first == first) <==> Of(ts, !first) == []
    ensures Of(ts, !first) == [] ==> Of(ts, first) == All(ts)
  {
    if ts != [] {
      OnlyOne(ts[1..], first);
      assert All(ts) == [ts[0].cmd] + All(ts[1..]);
      assert ts == [ts[0]] + ts[1..];
    }
  }

  lemma {:induction false} OfMembers(ts: seq<Sent>, i: nat)
    requires i < |ts|
    ensures ts[i].cmd in Of(ts, ts[i].first)
  {
    if i > 0 {
      OfMembers(ts[1..], i - 1);
    }
  }

  /** After the later of the two DELs, at d, only pushes follow, and those of its sender are all of them. */
  lemma {:induction false} AfterLastDelete(key: string, a: seq<string>, b: seq<string>, ts: seq<Sent>, d: nat)
    requires Of(ts, true) == ListWrites(key, a) && Of(ts, false) == ListWrites(key, b)
    requires d < |ts| && ts[d] == Sent(false, Del([key])) && exists e :: 0 <= e < d && ts[e].first
    ensures Of(ts[d + 1..], false) == Pushes(key, b)
    ensures forall c :: c in All(ts[d + 1..]) ==> c.RPush? && |c.values| == 1 && c.key == key
  {
    var late := ts[d + 1..];
    OfAround(ts, d, false);
    OfAround(ts, d, true);
    FirstDelete(key, b, Of(ts[..d], false), Of(late, false));
    var e :| 0 <= e < d && ts[e].first;
    OfMembers(ts[..d], e);
    Nothing(Of(late, true));
    LaterPush(key, a, Of(ts[..d], true), Of(late, true));
    forall c | c in All(late) ensures c in Of(late, true) || c in Of(late, false) {
      var i :| 0 <= i < |late| && All(late)[i] == c;
      OfMembers(late, i);
    }
    assert forall i :: 0 <= i < |Pushes(key, b)| ==> Pushes(key, b)[i] == RPush(key, [b[i]]);
  }

  lemma {:induction false} OfAround(ts: seq<Sent>, d: nat, first: bool)
    requires d < |ts|
    ensures Of(ts, first) ==
            Of(ts[..d], first) + ((if ts[d].first == first then [ts[d].cmd] else []) + Of(ts[d + 1..], first))
  {
    assert ts == ts[..d] + ([ts[d]] + ts[d + 1..]);
    OfConcat(ts[..d], [ts[d]] + ts[d + 1..], first);
    OfCons(ts[d], ts[d + 1..], first);
  }

  /** A rewriting has one DEL, its first command. */
  lemma {:induction false} FirstDelete(key: string, ids: seq<string>, before: seq<Cmd>, after: seq<Cmd>)
    requires before + ([Del([key])] + after) == ListWrites(key, ids)
    ensures before == [] && after == Pushes(key, ids)
  {
    var whole := ListWrites(key, ids);
    assert whole[|before|] == Del([key]);
    assert forall i :: 0 < i < |whole| ==> whole[i].RPush?;
    assert whole[1..] == Pushes(key, ids);
  }

  lemma {:induction false} LaterPush(key: string, ids: seq<string>, before: seq<Cmd>, after: seq<Cmd>)
    requires before != [] && before + after == ListWrites(key, ids)
    ensures forall c :: c in after ==> c.RPush? && |c.values| == 1 && c.key == key
  {
    var whole, pushes := ListWrites(key, ids), Pushes(key, ids);
    assert forall i :: 0 <= i < |pushes| ==> pushes[i].RPush? && |pushes[i].values| == 1 && pushes[i].key == key;
    forall i | 0 <= i < |after| ensures after[i] in pushes {
      assert after[i] == (before + after)[|before| + i] == whole[|before| + i] == pushes[|before| + i - 1];
    }
  }

  /** What a list holds after a DEL and the pushes that follow it. */
  lemma {:induction false} AfterDelete(db: Db, key: string, before: seq<Cmd>, late: seq<Cmd>)
    requires forall c :: c in late ==> c.RPush? && |c.values| == 1 && c.key == key
    ensures Run(db, before + ([Del([key])] + late)).Peek(key) == OfList(Pushed(late))
  {
    RunSplit(db, before, [Del([key])] + late);
    var mid := Run(db, before);
    assert ([Del([key])] + late)[1..] == late;
    PushesAppend(Apply(mid, Del([key])), key, [], late);
    Nothing(Pushed(late));
  }

  lemma {:induction false} AllConcat(a: seq<Sent>, b: seq<Sent>)
    ensures All(a + b) == All(a) + All(b)
    decreases |a|
  {
    if a == [] {
      Nothing(b);
      Nothing(All(b));
    } else {
      assert a + b == [a[0]] + (a[1..] + b);
      AllConcat(a[1..], b);
      OfCons(a[0], a[1..] + b, true);
    }
  }

  lemma {:induction false} SplitAt(ts: seq<Sent>, d: nat)
    requires d < |ts|
    ensures All(ts) == All(ts[..d]) + ([ts[d].cmd] + All(ts[d + 1..]))
  {
    assert ts == ts[..d] + ([ts[d]] + ts[d + 1..]);
    AllConcat(ts[..d], [ts[d]] + ts[d + 1..]);
    OfCons(ts[d], ts[d + 1..], true);
  }

  /** The pushes of late give b exactly when they are those of one sender, who pushes b. */
  lemma {:induction false} OnlyPushesOf(key: string, b: seq<string>, late: seq<Sent>)
    requires Of(late, false) == Pushes(key, b)
    requires forall c :: c in All(late) ==> c.RPush? && |c.values| == 1 && c.key == key
    ensures OfList(Pushed(All(late))) == OfList(b) <==> forall t :: t in late ==> !t.first
  {
    OnlyOne(late, false);
    PushedBack(key, b);
    PushedSize(All(late));
  }

  lemma {:induction false} PushedSize(cs: seq<Cmd>)
    requires forall c :: c in cs ==> c.RPush? && |c.values| == 1
    ensures |Pushed(cs)| == |cs|
    decreases |cs|
  {
    if cs != [] {
      assert cs[0] in cs;
      PushedSize(cs[1..]);
    }
  }

  /** Two rewritings overlap, the second one's DEL coming last, at d: the list then holds what is pushed later. */
  lemma {:induction false} EndsWithLate(db: Db, key: string, a: seq<string>, b: seq<string>, ts: seq<Sent>, d: nat)
    requires Of(ts, true) == ListWrites(key, a) && Of(ts, false) == ListWrites(key, b)
    requires d < |ts| && ts[d] == Sent(false, Del([key])) && exists e :: 0 <= e < d && ts[e].first
    ensures Of(ts[d + 1..], false) == Pushes(key, b)
    ensures forall c :: c in All(ts[d + 1..]) ==> c.RPush? && |c.values| == 1 && c.key == key
    ensures Run(db, All(ts)).Peek(key) == OfList(Pushed(All(ts[d + 1..])))
  {
    AfterLastDelete(key, a, b, ts, d);
    SplitAt(ts, d);
    AfterDelete(db, key, All(ts[..d]), All(ts[d + 1..]));
  }

  lemma {:induction false} NoneLater(ts: seq<Sent>, d: nat)
    requires d < |ts|
    ensures (forall t :: t in ts[d + 1..] ==> !t.first) <==> forall i :: d < i < |ts| ==> !ts[i].first
  {
    var late := ts[d + 1..];
    assert forall i :: d < i < |ts| ==> ts[i] == late[i - d - 1];
    assert (forall t :: t in late ==> !t.first) <==> forall i :: 0 <= i < |late| ==> !late[i].first;
  }

  /**
   * When two rewritings of one list overlap and the second one's DEL comes last, at d, the list
   * ends as the second wanted it if and only if all pushes of the first come before that DEL.
   */
  lemma {:induction false} LastListWinsIff(db: Db, key: string, a: seq<string>, b: seq<string>, ts: seq<Sent>, d: nat)
    requires Of(ts, true) == ListWrites(key, a) && Of(ts, false) == ListWrites(key, b)
    requires d < |ts| && ts[d] == Sent(false, Del([key])) && exists e :: 0 <= e < d && ts[e].first
    ensures Run(db, All(ts)).Peek(key) == OfList(b) <==> forall i :: d < i < |ts| ==> !ts[i].first
  {
    EndsWithLate(db, key, a, b, ts, d);
    OnlyPushesOf(key, b, ts[d + 1..]);
    NoneLater(ts, d);
  }

  /** The same for two whole updates of a profile, of whose commands those on the list's key decide. */
  lemma {:induction false} LastUpdateWinsIff(db: Db, one: Settings, two: Settings, storedOne: seq<string>,
                                             storedTwo: seq<string>, ts: seq<Sent>, l: ListName, d: nat)
    requires one.profileId == two.profileId
    requires AllRuleKeys(one.profileId, storedOne) && AllRuleKeys(one.profileId, storedTwo)
    requires Of(ts, true) == UpdateCommands(one, storedOne) && Of(ts, false) == UpdateCommands(two, storedTwo)
    requires var key := SettingsKey(one.profileId, l.Name());
             var sub := On(ts, key);
             d < |sub| && sub[d] == Sent(false, Del([key])) && exists e :: 0 <= e < d && sub[e].first
    ensures var key := SettingsKey(one.profileId, l.Name());
            Run(db, All(ts)).Peek(key) == OfList(ListIds(two, l)) <==>
            forall i :: d < i < |On(ts, key)| ==> !On(ts, key)[i].first
  {
    OnListOnly(db, one, two, storedOne, storedTwo, ts, l);
    LastListWinsIff(db, SettingsKey(one.profileId, l.Name()), ListIds(one, l), ListIds(two, l),
                    On(ts, SettingsKey(one.profileId, l.Name())), d);
  }

  /** Of two overlapping updates, their rewritings of a list alone decide how the list ends. */
  lemma {:induction false} OnListOnly(db: Db, one: Settings, two: Settings, storedOne: seq<string>,
                                      storedTwo: seq<string>, ts: seq<Sent>, l: ListName)
    requires one.profileId == two.profileId
    requires AllRuleKeys(one.profileId, storedOne) && AllRuleKeys(one.profileId, storedTwo)
    requires Of(ts, true) == UpdateCommands(one, storedOne) && Of(ts, false) == UpdateCommands(two, storedTwo)
    ensures var key := SettingsKey(one.profileId, l.Name());
            && Of(On(ts, key), true) == ListWrites(key, ListIds(one, l))
            && Of(On(ts, key), false) == ListWrites(key, ListIds(two, l))
            && Run(db, All(ts)).Peek(key) == Run(db, All(On(ts, key))).Peek(key)
  {
    var key := SettingsKey(one.profileId, l.Name());
    ListCommandsOnly(one, storedOne, l);
    ListCommandsOnly(two, storedTwo, l);
    OfOn(ts, true, key);
    OfOn(ts, false, key);
    forall t | t in ts && key in Written(t.cmd) ensures t.cmd.Del? || t.cmd.RPush? || t.cmd.HSet? {
      var i :| 0 <= i < |ts| && ts[i] == t;
      OfMembers(ts, i);
      UpdateKinds(if t.first then one else two, if t.first then storedOne else storedTwo, l, t.cmd);
    }
    RunIsLocal(db, db, ts, key);
  }

  lemma {:induction false} UpdateKinds(st: Settings, stored: seq<string>, l: ListName, c: Cmd)
    requires AllRuleKeys(st.profileId, stored) && c in UpdateCommands(st, stored)
    ensures SettingsKey(st.profileId, l.Name()) in Written(c) ==> c.Del? || c.RPush? || c.HSet?
  {
    ListNameFacts(l);
    OutsideRules(st.profileId, l.Name());
    if c in SettingsWrites(st) {
      var name := SettingsWritesPlain(st, c);
    } else if c in RuleWrites(st.profileId, st.rules) {
    } else {
      var index := CustomRulesSetKey(st.profileId);
      var stale := Stale(stored, Elements(RuleKeys(st.profileId, st.rules)));
      assert c in [SAdd(index, RuleKeys(st.profileId, st.rules))] || c in StaleQueue(st.profileId, stale);
    }
  }
}
