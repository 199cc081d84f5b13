/** For which lists two overlapping updates can end with a list that neither caller wrote. */
module OverlappingLists {
  import opened Redis
  import opened Keys
  import opened ProfileSettings
  import opened CustomRules
  import opened RuleConcurrency
  import opened SettingsMirror
  import opened OverlappingUpdates

  /** The list ends as one of the two wanted it. */
  predicate OneWins(db: Db, key: string, a: seq<string>, b: seq<string>, ts: seq<Sent>) {
    Run(db, All(ts)).Peek(key) == OfList(a) || Run(db, All(ts)).Peek(key) == OfList(b)
  }

  // ------------------------------------------------------------------ the senders exchanged

  function Swap(ts: seq<Sent>): seq<Sent> {
    if ts == [] then [] else [Sent(!ts[0].first, ts[0].cmd)] + Swap(ts[1..])
  }

  lemma {:induction false} SwapFacts(ts: seq<Sent>)
    ensures |Swap(ts)| == |ts| && All(Swap(ts)) == All(ts)
    ensures forall i :: 0 <= i < |ts| ==> Swap(ts)[i] == Sent(!ts[i].first, ts[i].cmd)
  {
    if ts != [] {
      SwapFacts(ts[1..]);
      OfCons(Sent(!ts[0].first, ts[0].cmd), Swap(ts[1..]), true);
    }
  }

  lemma {:induction false} OfSwap(ts: seq<Sent>, first: bool)
    ensures Of(Swap(ts), first) == Of(ts, !first)
  {
    if ts != [] {
      OfSwap(ts[1..], first);
      OfCons(Sent(!ts[0].first, ts[0].cmd), Swap(ts[1..]), first);
    }
  }

  // ------------------------------------------------------------------ short lists

  lemma {:induction false} Find(ts: seq<Sent>, first: bool) returns (d: nat)
    requires Of(ts, first) != []
    ensures d < |ts| && ts[d] == Sent(first, Of(ts, first)[0])
  {
    if ts[0].first == first {
      d := 0;
    } else {
      Nothing(Of(ts[1..], first));
      d := Find(ts[1..], first);
      d := d + 1;
    }
  }

  /** What the first sends after the second's DEL is the end of its pushes. */
  lemma {:induction false} LateOfFirst(key: string, a: seq<string>, ts: seq<Sent>, d: nat)
    requires Of(ts, true) == ListWrites(key, a)
    requires d < |ts| && !ts[d].first && exists e :: 0 <= e < d && ts[e].first
    ensures |Of(ts[d + 1..], true)| <= |a|
    ensures |Of(ts[d + 1..], true)| == |a| ==> Of(ts[d + 1..], true) == Pushes(key, a)
  {
    var before, late := Of(ts[..d], true), Of(ts[d + 1..], true);
    OfAround(ts, d, true);
    Nothing(late);
    var e :| 0 <= e < d && ts[e].first;
    OfMembers(ts[..d], e);
    assert before + late == ListWrites(key, a) == [Del([key])] + Pushes(key, a);
    if |late| == |a| {
      assert late == (before + late)[1..] == Pushes(key, a);
    }
  }

  lemma {:induction false} LastOrOther(db: Db, key: string, a: seq<string>, b: seq<string>, ts: seq<Sent>, d: nat)
    requires Of(ts, true) == ListWrites(key, a) && Of(ts, false) == ListWrites(key, b) && |a| + |b| <= 1
    requires d < |ts| && ts[d] == Sent(false, Del([key])) && exists e :: 0 <= e < d && ts[e].first
    ensures OneWins(db, key, a, b, ts)
  {
    var late := ts[d + 1..];
    EndsWithLate(db, key, a, b, ts, d);
    OnlyPushesOf(key, b, late);
    if exists t :: t in late && t.first {
      LateOfFirst(key, a, ts, d);
      OnlyOne(late, false);
      OnlyOne(late, true);
      assert b == [] && Pushes(key, b) == [];
      PushedBack(key, a);
    }
  }

  lemma {:induction false} OneListWins(db: Db, key: string, a: seq<string>, b: seq<string>, ts: seq<Sent>)
    requires Of(ts, true) == ListWrites(key, a) && Of(ts, false) == ListWrites(key, b) && |a| + |b| <= 1
    ensures OneWins(db, key, a, b, ts)
  {
    var d := Find(ts, true);
    var e := Find(ts, false);
    if d < e {
      LastOrOther(db, key, a, b, ts, e);
    } else {
      SwapFacts(ts);
      OfSwap(ts, true);
      OfSwap(ts, false);
      assert Swap(ts)[e].first && Swap(ts)[d] == Sent(false, Del([key]));
      LastOrOther(db, key, b, a, Swap(ts), d);
    }
  }

  // ------------------------------------------------------------------ longer lists

  function Tag(cs: seq<Cmd>, first: bool): seq<Sent> {
    if cs == [] then [] else [Sent(first, cs[0])] + Tag(cs[1..], first)
  }

  lemma {:induction false} TagFacts(cs: seq<Cmd>, first: bool)
    ensures Of(Tag(cs, first), first) == cs && Of(Tag(cs, first), !first) == [] && All(Tag(cs, first)) == cs
    decreases |cs|
  {
    if cs != [] {
      var t := Sent(first, cs[0]);
      TagFacts(cs[1..], first);
      OfCons(t, Tag(cs[1..], first), first);
      OfCons(t, Tag(cs[1..], first), !first);
      assert [cs[0]] + cs[1..] == cs;
    }
  }

  /** All pushes of both senders. */
  lemma {:induction false} PushesOfBoth(a: seq<Cmd>, b: seq<Cmd>) returns (late: seq<Sent>)
    ensures Of(late, true) == a && Of(late, false) == b && All(late) == a + b
  {
    var x, y := Tag(a, true), Tag(b, false);
    late := x + y;
    TagFacts(a, true);
    TagFacts(b, false);
    AllConcat(x, y);
    OfConcat(x, y, true);
    OfConcat(x, y, false);
    assert a + [] == a && [] + b == b;
  }

  lemma {:induction false} PushesAre(key: string, a: seq<string>, b: seq<string>)
    ensures forall c :: c in Pushes(key, a) + Pushes(key, b) ==> c.RPush? && |c.values| == 1 && c.key == key
  {
  }

  /** Both DELs, and then all pushes. */
  lemma {:induction false} BothPush(db: Db, key: string, a: seq<string>, b: seq<string>) returns (ts: seq<Sent>)
    requires a != [] && b != []
    ensures Of(ts, true) == ListWrites(key, a) && Of(ts, false) == ListWrites(key, b)
    ensures !OneWins(db, key, a, b, ts)
  {
    var del, pushes := Del([key]), Pushes(key, a) + Pushes(key, b);
    var late := PushesOfBoth(Pushes(key, a), Pushes(key, b));
    ts := [Sent(true, del)] + ([Sent(false, del)] + late);
    Prefixed(del, late);
    PushesAre(key, a, b);
    AfterDelete(db, key, [del], pushes);
    PushedSize(pushes);
    LongerIsNeither(a, b, Pushed(pushes));
  }

  lemma {:induction false} LongerIsNeither(a: seq<string>, b: seq<string>, items: seq<string>)
    requires |items| > |a| && |items| > |b|
    ensures OfList(items) != OfList(a) && OfList(items) != OfList(b)
  {
  }

  lemma {:induction false} Prefixed(del: Cmd, late: seq<Sent>)
    ensures var ts := [Sent(true, del)] + ([Sent(false, del)] + late);
            && Of(ts, true) == [del] + Of(late, true) && Of(ts, false) == [del] + Of(late, false)
            && All(ts) == [del] + ([del] + All(late))
  {
    OfCons(Sent(false, del), late, true);
    OfCons(Sent(true, del), [Sent(false, del)] + late, true);
    OfCons(Sent(false, del), late, false);
    OfCons(Sent(true, del), [Sent(false, del)] + late, false);
    Nothing(Of(late, true));
    Nothing([del] + Of(late, false));
  }

  /** The empty rewriting's DEL falls before the last push of the other. */
  lemma {:induction false} HalfDeleted(db: Db, key: string, a: seq<string>) returns (ts: seq<Sent>)
    requires |a| >= 2
    ensures Of(ts, true) == ListWrites(key, a) && Of(ts, false) == ListWrites(key, [])
    ensures !OneWins(db, key, a, [], ts)
  {
    var n := |a| - 1;
    var start, last := ListWrites(key, a)[..n + 1], ListWrites(key, a)[n + 1..];
    var x, y, del := Tag(start, true), Tag(last, true), Sent(false, Del([key]));
    ts := x + ([del] + y);
    TagFacts(start, true);
    TagFacts(last, true);
    forall first ensures Of(ts, first) == Of(x, first) + ((if first then [] else [Del([key])]) + Of(y, first)) {
      OfConcat(x, [del] + y, first);
      OfCons(del, y, first);
    }
    AllConcat(x, [del] + y);
    OfCons(del, y, true);
    Nothing(last);
    assert start + last == ListWrites(key, a);
    assert [] + ([Del([key])] + []) == [Del([key])] == ListWrites(key, []);
    assert last == [RPush(key, [a[n]])];
    AfterDelete(db, key, start, last);
    assert Pushed(last) == [a[n]] + Pushed(last[1..]) && last[1..] == [];
  }

  /** With two ids or more in all, the commands can meet so that neither caller's list results. */
  lemma {:induction false} MixedListArises(db: Db, key: string, a: seq<string>, b: seq<string>)
      returns (ts: seq<Sent>)
    requires |a| + |b| >= 2
    ensures Of(ts, true) == ListWrites(key, a) && Of(ts, false) == ListWrites(key, b)
    ensures !OneWins(db, key, a, b, ts)
  {
    if a != [] && b != [] {
      ts := BothPush(db, key, a, b);
    } else if b == [] {
      ts := HalfDeleted(db, key, a);
    } else {
      var other := HalfDeleted(db, key, b);
      ts := Swap(other);
      SwapFacts(other);
      OfSwap(other, true);
      OfSwap(other, false);
    }
  }

  /** Every interleaving of two rewritings ends as one caller wanted if and only if they push one id in all. */
  lemma {:induction false} ListsNeverMixIff(db: Db, key: string, a: seq<string>, b: seq<string>)
    ensures (forall ts :: Of(ts, true) == ListWrites(key, a) && Of(ts, false) == ListWrites(key, b) ==>
               OneWins(db, key, a, b, ts))
            <==> |a| + |b| <= 1
  {
    if |a| + |b| <= 1 {
      forall ts | Of(ts, true) == ListWrites(key, a) && Of(ts, false) == ListWrites(key, b)
        ensures OneWins(db, key, a, b, ts)
      {
        OneListWins(db, key, a, b, ts);
      }
    } else {
      var ts := MixedListArises(db, key, a, b);
    }
  }

  // ------------------------------------------------------------------ whole updates

  lemma {:induction false} OnConcat(a: seq<Sent>, b: seq<Sent>, key: string)
    ensures On(a + b, key) == On(a, key) + On(b, key)
    decreases |a|
  {
    if a == [] {
      Nothing(b);
      Nothing(On(b, key));
    } else {
      assert a + b == [a[0]] + (a[1..] + b);
      OnCons(a[0], a[1..] + b, key);
      OnConcat(a[1..], b, key);
      Nothing(On(a[1..], key));
      Nothing(On(a[1..], key) + On(b, key));
    }
  }

  lemma {:induction false} OnCons(t: Sent, ts: seq<Sent>, key: string)
    ensures On([t] + ts, key) == (if key in Written(t.cmd) then [t] else []) + On(ts, key)
  {
    assert ([t] + ts)[1..] == ts;
  }

  lemma {:induction false} OnTagNone(cs: seq<Cmd>, first: bool, key: string)
    requires forall c :: c in cs ==> key !in Written(c)
    ensures On(Tag(cs, first), key) == []
    decreases |cs|
  {
    if cs != [] {
      assert Tag(cs, first)[1..] == Tag(cs[1..], first) && cs[0] in cs;
      OnTagNone(cs[1..], first, key);
    }
  }

  lemma {:induction false} OnAll(ts: seq<Sent>, key: string)
    requires forall t :: t in ts ==> key in Written(t.cmd)
    ensures On(ts, key) == ts
    decreases |ts|
  {
    if ts != [] {
      assert ts[0] in ts;
      OnAll(ts[1..], key);
    }
  }

  /** An update around its rewriting of a list. */
  lemma {:induction false} UpdateAround(st: Settings, stored: seq<string>, l: ListName)
      returns (before: seq<Cmd>, after: seq<Cmd>)
    requires AllRuleKeys(st.profileId, stored)
    ensures var key := SettingsKey(st.profileId, l.Name());
            && UpdateCommands(st, stored) == before + (ListWrites(key, ListIds(st, l)) + after)
            && (forall c :: c in before ==> key !in Written(c)) && (forall c :: c in after ==> key !in Written(c))
  {
    var p, key := st.profileId, SettingsKey(st.profileId, l.Name());
    var blocklists := ListWrites(SettingsKey(p, "blocklists"), st.blocklists);
    var services := ListWrites(SettingsKey(p, "services"), st.services);
    var rest := HashWrites(st) + ReplaceQueue(p, st.rules, stored);
    RestSparesLists(st, stored, l);
    SameKey(p, "blocklists", "services");
    Regroup(blocklists, services, HashWrites(st), ReplaceQueue(p, st.rules, stored));
    before, after := if l == Blocklists then [] else blocklists, if l == Blocklists then services + rest else rest;
  }

  lemma {:induction false} RestSparesLists(st: Settings, stored: seq<string>, l: ListName)
    requires AllRuleKeys(st.profileId, stored)
    ensures forall c :: c in HashWrites(st) + ReplaceQueue(st.profileId, st.rules, stored) ==>
              SettingsKey(st.profileId, l.Name()) !in Written(c)
  {
    var key := SettingsKey(st.profileId, l.Name());
    HashesSpareLists(st, l);
    RulesSpareLists(st, stored, l);
    NoneOnKey(HashWrites(st), key);
    NoneOnKey(ReplaceQueue(st.profileId, st.rules, stored), key);
  }

  lemma {:induction false} NoneOnKey(cs: seq<Cmd>, key: string)
    requires OnKey(cs, key) == []
    ensures forall c :: c in cs ==> key !in Written(c)
    decreases |cs|
  {
    if cs != [] {
      Nothing(OnKey(cs[1..], key));
      NoneOnKey(cs[1..], key);
    }
  }

  /** The commands around two rewritings, each sender's in its order. */
  function Around(a: seq<Cmd>, b: seq<Cmd>, ts: seq<Sent>, x: seq<Cmd>, y: seq<Cmd>): seq<Sent> {
    Tag(a, true) + (Tag(b, false) + (ts + (Tag(x, true) + Tag(y, false))))
  }

  lemma {:induction false} OfAroundTags(a: seq<Cmd>, b: seq<Cmd>, ts: seq<Sent>, x: seq<Cmd>, y: seq<Cmd>)
    ensures Of(Around(a, b, ts, x, y), true) == a + (Of(ts, true) + x)
    ensures Of(Around(a, b, ts, x, y), false) == b + (Of(ts, false) + y)
  {
    TagFacts(a, true);
    TagFacts(b, false);
    TagFacts(x, true);
    TagFacts(y, false);
    OfConcats(Tag(a, true), Tag(b, false), ts, Tag(x, true), Tag(y, false), true);
    OfConcats(Tag(a, true), Tag(b, false), ts, Tag(x, true), Tag(y, false), false);
    Gaps(a, Of(ts, true), x);
    Gaps(b, Of(ts, false), y);
  }

  lemma {:induction false} Gaps(a: seq<Cmd>, c: seq<Cmd>, x: seq<Cmd>)
    ensures a + ([] + (c + (x + []))) == a + (c + x)
    ensures [] + (a + (c + ([] + x))) == a + (c + x)
  {
    assert x + [] == x && [] + x == x;
    assert [] + (c + x) == c + x;
    assert [] + (a + (c + x)) == a + (c + x);
  }

  lemma {:induction false} Regroup(a: seq<Cmd>, b: seq<Cmd>, c: seq<Cmd>, d: seq<Cmd>)
    ensures (a + b + c) + d == a + (b + (c + d)) == [] + (a + (b + (c + d)))
  {
  }

  lemma {:induction false} OfConcats(a: seq<Sent>, b: seq<Sent>, c: seq<Sent>, d: seq<Sent>, e: seq<Sent>, first: bool)
    ensures Of(a + (b + (c + (d + e))), first) ==
            Of(a, first) + (Of(b, first) + (Of(c, first) + (Of(d, first) + Of(e, first))))
  {
    OfConcat(a, b + (c + (d + e)), first);
    OfConcat(b, c + (d + e), first);
    OfConcat(c, d + e, first);
    OfConcat(d, e, first);
  }

  lemma {:induction false} OnAround(a: seq<Cmd>, b: seq<Cmd>, ts: seq<Sent>, x: seq<Cmd>, y: seq<Cmd>, key: string)
    requires forall c :: c in a || c in b || c in x || c in y ==> key !in Written(c)
    requires forall t :: t in ts ==> key in Written(t.cmd)
    ensures On(Around(a, b, ts, x, y), key) == ts
  {
    OnConcat(Tag(a, true), Tag(b, false) + (ts + (Tag(x, true) + Tag(y, false))), key);
    OnConcat(Tag(b, false), ts + (Tag(x, true) + Tag(y, false)), key);
    OnConcat(ts, Tag(x, true) + Tag(y, false), key);
    OnConcat(Tag(x, true), Tag(y, false), key);
    OnTagNone(a, true, key);
    OnTagNone(b, false, key);
    OnTagNone(x, true, key);
    OnTagNone(y, false, key);
    OnAll(ts, key);
    assert [] + ([] + (ts + ([] + []))) == ts;
  }

  lemma {:induction false} RewritingsOnKey(key: string, a: seq<string>, b: seq<string>, ts: seq<Sent>)
    requires Of(ts, true) == ListWrites(key, a) && Of(ts, false) == ListWrites(key, b)
    ensures forall t :: t in ts ==> key in Written(t.cmd)
  {
    forall t | t in ts ensures key in Written(t.cmd) {
      var i :| 0 <= i < |ts| && ts[i] == t;
      OfMembers(ts, i);
    }
  }

  /** Two updates whose lists hold two ids or more in all can end with a list neither caller wrote. */
  lemma {:induction false} MixedUpdateArises(db: Db, one: Settings, two: Settings, storedOne: seq<string>,
                                             storedTwo: seq<string>, l: ListName) returns (ts: seq<Sent>)
    requires one.profileId == two.profileId && |ListIds(one, l)| + |ListIds(two, l)| >= 2
    requires AllRuleKeys(one.profileId, storedOne) && AllRuleKeys(one.profileId, storedTwo)
    ensures Of(ts, true) == UpdateCommands(one, storedOne) && Of(ts, false) == UpdateCommands(two, storedTwo)
    ensures !OneWins(db, SettingsKey(one.profileId, l.Name()), ListIds(one, l), ListIds(two, l), ts)
  {
    var key := SettingsKey(one.profileId, l.Name());
    var a, x := UpdateAround(one, storedOne, l);
    var b, y := UpdateAround(two, storedTwo, l);
    var sub := MixedListArises(db, key, ListIds(one, l), ListIds(two, l));
    ts := Around(a, b, sub, x, y);
    OfAroundTags(a, b, sub, x, y);
    RewritingsOnKey(key, ListIds(one, l), ListIds(two, l), sub);
    OnAround(a, b, sub, x, y, key);
    OnListOnly(db, one, two, storedOne, storedTwo, ts, l);
  }

  /**
   * Two updates of a profile end with the list of one of the callers, however they overlap, if and
   * only if the two lists hold at most one id in all.
   */
  lemma {:induction false} UpdatesNeverMixIff(db: Db, one: Settings, two: Settings, storedOne: seq<string>,
                                              storedTwo: seq<string>, l: ListName)
    requires one.profileId == two.profileId
    requires AllRuleKeys(one.profileId, storedOne) && AllRuleKeys(one.profileId, storedTwo)
    ensures (forall ts :: Of(ts, true) == UpdateCommands(one, storedOne)
                          && Of(ts, false) == UpdateCommands(two, storedTwo) ==>
               OneWins(db, SettingsKey(one.profileId, l.Name()), ListIds(one, l), ListIds(two, l), ts))
            <==> |ListIds(one, l)| + |ListIds(two, l)| <= 1
  {
    var key := SettingsKey(one.profileId, l.Name());
    if |ListIds(one, l)| + |ListIds(two, l)| <= 1 {
      forall ts | Of(ts, true) == UpdateCommands(one, storedOne) && Of(ts, false) == UpdateCommands(two, storedTwo)
        ensures OneWins(db, key, ListIds(one, l), ListIds(two, l), ts)
      {
        OnListOnly(db, one, two, storedOne, storedTwo, ts, l);
        OneListWins(db, key, ListIds(one, l), ListIds(two, l), On(ts, key));
      }
    } else {
      var ts := MixedUpdateArises(db, one, two, storedOne, storedTwo, l);
    }
  }
}
