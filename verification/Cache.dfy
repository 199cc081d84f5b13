/**
 * The cache client. A call is given the Link it has: how many of its commands still reach the
 * server, and how many of their replies come back. A pipeline or a sequence of commands that
 * breaks off leaves a prefix behind and the call reports failure; so does a command whose reply is
 * lost, though it took effect.
 */
module Cache {
  import opened Wrappers
  import opened Text
  import opened Redis
  import opened Keys
  import opened ProfileSettings
  import opened CustomRules
  import opened RuleConcurrency
  import opened SettingsMirror
  import opened MirrorHistory
  import opened StoredContents
  import opened ProfileDeletion
  import Ceremonies

  datatype Link = Link(up: nat, heard: nat) {
    /** Does the next command arrive and its reply come back? */
    predicate Answers() {
      up > 0 && heard > 0
    }

    predicate Carries(n: nat) {
      n <= up && n <= heard
    }

    /** What is left after n commands. */
    function Skip(n: nat): Link {
      Link(if up > n then up - n else 0, if heard > n then heard - n else 0)
    }
  }

  class RedisCache {
    /** The server behind the client. */
    var db: Db

    constructor (server: Db)
      ensures db == server
    {
      db := server;
    }

    /** Sends one command; it fails without a reply or when the server replies with an error. */
    method Send(c: Cmd, l: Link) returns (ok: bool)
      modifies this
      ensures db == if l.up > 0 then Apply(old(db), c) else old(db)
      ensures ok <==> l.up > 0 && l.heard > 0 && !Fails(old(db), c)
    {
      ok := l.Answers() && !Fails(db, c);
      if l.up > 0 {
        db := Apply(db, c);
      }
    }

    /** Executes a queued pipeline: what arrives is executed, error replies included. */
    method Exec(cs: seq<Cmd>, l: Link) returns (ok: bool)
      modifies this
      ensures db == Run(old(db), if l.up < |cs| then cs[..l.up] else cs)
      ensures ok <==> |cs| <= l.up && |cs| <= l.heard && !AnyFails(old(db), cs)
    {
      var i := 0;
      ok := l.Carries(|cs|);
      ghost var all := Delivered(cs, l.up);
      while i < |cs| && i < l.up
        invariant i <= |all| && all == Delivered(cs, l.up)
        invariant Run(old(db), all) == Run(db, all[i..])
        invariant ok ==> all == cs
        invariant l.Carries(|cs|) ==> (AnyFails(old(db), cs) <==> !ok || AnyFails(db, cs[i..]))
        invariant !l.Carries(|cs|) ==> !ok
      {
        if Fails(db, cs[i]) {
          ok := false;
        }
        assert all[i..][1..] == all[i + 1..] && cs[i..][1..] == cs[i + 1..];
        db := Apply(db, cs[i]);
        i := i + 1;
      }
      assert all[i..] == [];
    }

    /** The members of the set at key, in the order of the server's choosing. */
    method SMembers(key: string, l: Link) returns (r: Result<seq<string>>)
      ensures r.Ok? <==> l.up > 0 && l.heard > 0 && (key in db.keys ==> db.keys[key].Members?)
      ensures r.Ok? ==> Lists(r.value, db.Elems(key))
    {
      if !l.Answers() || (key in db.keys && !db.keys[key].Members?) {
        return Err;
      }
      var left, out := db.Elems(key), [];
      while left != {}
        invariant left <= db.Elems(key) && Elements(out) == db.Elems(key) - left
        invariant |out| + |left| == |db.Elems(key)|
        decreases left
      {
        var m :| m in left;
        assert Elements(out + [m]) == Elements(out) + {m};
        assert left == (left - {m}) + {m};
        left, out := left - {m}, out + [m];
      }
      r := Ok(out);
    }

    // ---------------------------------------------------------------- strings

    /**
     * INCR, then EXPIRE when the counter was just created; the value is reported even if EXPIRE
     * fails. When the reply to INCR is lost the counter has moved and no EXPIRE follows.
     */
    method Incr(key: string, expiration: nat, l: Link) returns (val: int, ok: bool)
      modifies this
      ensures l.up == 0 || Fails(old(db), Cmd.Incr(key)) ==> db == old(db) && !ok && val == 0
      ensures l.up > 0 && !Fails(old(db), Cmd.Incr(key)) ==>
                var bumped := Apply(old(db), Cmd.Incr(key));
                if l.heard == 0 then db == bumped && !ok && val == 0
                else
                  && val == old(db).Counter(key).value + 1
                  && db == (if expiration > 0 && val == 1 && l.up > 1 then Apply(bumped, Expire(key, expiration))
                            else bumped)
                  && (ok <==> expiration > 0 && val == 1 ==> l.up > 1 && l.heard > 1)
    {
      ghost var before := db;
      var sent := Send(Cmd.Incr(key), l);
      if !sent {
        return 0, false;
      }
      IncrReads(before, key);
      val := db.Counter(key).value;
      ok := true;
      if expiration > 0 && val == 1 {
        ok := Send(Expire(key, expiration), l.Skip(1));
      }
    }

    method Put(key: string, value: string, expiration: nat, l: Link) returns (ok: bool)
      modifies this
      ensures db == if l.up > 0 then Apply(old(db), Set(key, value, expiration)) else old(db)
      ensures ok <==> l.Answers()
    {
      ok := Send(Set(key, value, expiration), l);
    }

    /** Ok(None) stands for redis.Nil, Err for every other failure. */
    method Get(key: string, l: Link) returns (r: Result<Option<string>>)
      ensures r == if l.up == 0 || l.heard == 0 then Err
                   else match db.Peek(key) case None => Ok(None) case Some(Str(t)) => Ok(Some(t)) case Some(_) => Err
    {
      if !l.Answers() || (key in db.keys && !db.keys[key].Str?) {
        return Err;
      }
      r := Ok(if key in db.keys then Some(db.keys[key].text) else None);
    }

    // ---------------------------------------------------------------- profile settings

    /** What is queued for the rules, hashes before keys, and the keys. */
    static method QueueCustomRules(profileId: string, rules: seq<Rule>) returns (queued: seq<Cmd>, keys: set<string>)
      ensures queued == RulesQueue(profileId, rules)
      ensures Layout(profileId, rules, queued)
      ensures keys == Elements(RuleKeys(profileId, rules))
    {
      keys, queued := {}, [];
      if rules == [] {
        QueueLayout(profileId, rules);
        return;
      }
      var members: seq<string> := [];
      for i := 0 to |rules|
        invariant queued == RuleWrites(profileId, rules)[..i]
        invariant members == RuleKeys(profileId, rules)[..i]
        invariant keys == Elements(members)
      {
        var key := CustomRuleKey(profileId, rules[i].id);
        queued := queued + [HSet(key, rules[i].Hash())];
        ElementsSnoc(members, key);
        keys := keys + {key};
        members := members + [key];
      }
      assert members == RuleKeys(profileId, rules);
      queued := queued + [SAdd(CustomRulesSetKey(profileId), members)];
      QueueLayout(profileId, rules);
    }

    static method StaleKeys(stored: seq<string>, keep: set<string>) returns (stale: seq<string>)
      ensures stale == Stale(stored, keep)
    {
      stale := [];
      for i := 0 to |stored|
        invariant stale == Stale(stored[..i], keep)
      {
        StaleSnoc(stored[..i], stored[i], keep);
        assert stored[..i] + [stored[i]] == stored[..i + 1];
        if stored[i] !in keep {
          stale := stale + [stored[i]];
        }
      }
      assert stored[..|stored|] == stored;
    }

    static method QueueReplaceCustomRules(profileId: string, rules: seq<Rule>, stored: seq<string>)
        returns (queued: seq<Cmd>)
      ensures queued == ReplaceQueue(profileId, rules, stored)
    {
      var keep;
      queued, keep := QueueCustomRules(profileId, rules);
      var stale := StaleKeys(stored, keep);
      if |stale| > 0 {
        queued := queued + [SRem(CustomRulesSetKey(profileId), stale), Del(stale)];
      }
    }

    static method QueueList(key: string, ids: seq<string>) returns (queued: seq<Cmd>)
      ensures queued == ListWrites(key, ids)
    {
      queued := [Del([key])];
      for i := 0 to |ids|
        invariant queued == [Del([key])] + Pushes(key, ids)[..i]
      {
        queued := queued + [RPush(key, [ids[i]])];
      }
      assert Pushes(key, ids)[..|ids|] == Pushes(key, ids);
    }

    static method QueueHashes(st: Settings) returns (queued: seq<Cmd>)
      ensures queued == HashWrites(st)
    {
      queued := [];
      for i := 0 to |HASH_ORDER|
        invariant queued == HashWrites(st)[..i]
      {
        queued := queued + [HashWrite(st, HASH_ORDER[i])];
      }
    }

    static method QueueUpdate(st: Settings, stored: seq<string>) returns (pipe: seq<Cmd>)
      ensures pipe == UpdateCommands(st, stored)
    {
      pipe := QueueList(SettingsKey(st.profileId, "blocklists"), st.blocklists);
      var more := QueueList(SettingsKey(st.profileId, "services"), st.services);
      pipe := pipe + more;
      more := QueueHashes(st);
      pipe := pipe + more;
      more := QueueReplaceCustomRules(st.profileId, st.rules, stored);
      pipe := pipe + more;
    }

    /**
     * Mirrors a profile's settings. A success carries the whole update, so it does to the mirror
     * what Update means; a failure leaves a prefix of it, or all of it with its replies lost.
     */
    method CreateOrUpdateProfileSettings(st: Settings, l: Link) returns (ok: bool, ghost stored: seq<string>)
      modifies this
      ensures ok <==> Listable(old(db), st.profileId)
                      && |UpdateCommands(st, stored)| < l.up && |UpdateCommands(st, stored)| < l.heard
                      && !AnyFails(old(db), UpdateCommands(st, stored))
      ensures l.Answers() && Listable(old(db), st.profileId) ==>
                && Lists(stored, Index(old(db), st.profileId))
                && db == Run(old(db), Delivered(UpdateCommands(st, stored), l.Skip(1).up))
      ensures !(l.Answers() && Listable(old(db), st.profileId)) ==> db == old(db)
      ensures ok ==> Means(old(db), db, Update(st, stored))
      ensures ok && Typed(old(db), st.profileId) && HashesTyped(old(db), st.profileId) ==>
                UpdateStored(old(db), db, st) && RulesStored(db, st.profileId, st.rules)
    {
      ok, stored := SendUpdate(st, l);
      if ok {
        OpMeans(old(db), Update(st, stored));
        if Typed(old(db), st.profileId) && HashesTyped(old(db), st.profileId) {
          UpdateStores(old(db), st, stored);
        }
      }
    }

    /** The listing and the pipeline of an update. */
    method SendUpdate(st: Settings, l: Link) returns (ok: bool, ghost stored: seq<string>)
      modifies this
      ensures ok <==> Listable(old(db), st.profileId)
                      && |UpdateCommands(st, stored)| < l.up && |UpdateCommands(st, stored)| < l.heard
                      && !AnyFails(old(db), UpdateCommands(st, stored))
      ensures l.Answers() && Listable(old(db), st.profileId) ==>
                && Lists(stored, Index(old(db), st.profileId))
                && db == Run(old(db), Delivered(UpdateCommands(st, stored), l.Skip(1).up))
      ensures !(l.Answers() && Listable(old(db), st.profileId)) ==> db == old(db)
      ensures ok ==> db == Run(old(db), UpdateCommands(st, stored))
    {
      stored := [];
      var listed := SMembers(CustomRulesSetKey(st.profileId), l);
      if listed.Err? {
        return false, [];
      }
      stored := listed.value;
      var pipe := QueueUpdate(st, listed.value);
      ok := Exec(pipe, l.Skip(1));
    }

    method SetProfileSettingsFields(profileId: string, fields: seq<SettingsField>, l: Link) returns (ok: bool)
      modifies this
      ensures db == Run(old(db), Delivered(FieldWrites(profileId, fields), l.up))
      ensures ok <==> l.Carries(|fields|) && !AnyFails(old(db), FieldWrites(profileId, fields))
      ensures ok && (forall f :: f in fields ==> f.hash in HASH_NAMES) ==>
                Means(old(db), db, SetFields(profileId, fields))
      ensures ok && FieldsTyped(old(db), profileId, fields) ==> FieldsStored(old(db), db, profileId, fields)
    {
      ok := SendFields(profileId, fields, l);
      if ok && forall f :: f in fields ==> f.hash in HASH_NAMES {
        OpMeans(old(db), SetFields(profileId, fields));
      }
      if ok && FieldsTyped(old(db), profileId, fields) {
        FieldsStore(old(db), profileId, fields);
      }
    }

    /** The pipeline of single fields; none is sent when there are none. */
    method SendFields(profileId: string, fields: seq<SettingsField>, l: Link) returns (ok: bool)
      modifies this
      ensures db == Run(old(db), Delivered(FieldWrites(profileId, fields), l.up))
      ensures ok <==> l.Carries(|fields|) && !AnyFails(old(db), FieldWrites(profileId, fields))
      ensures ok ==> db == Run(old(db), FieldWrites(profileId, fields))
    {
      if |fields| == 0 {
        return true;
      }
      var pipe: seq<Cmd> := [];
      for i := 0 to |fields|
        invariant pipe == FieldWrites(profileId, fields)[..i]
      {
        pipe := pipe + [HSet(SettingsKey(profileId, fields[i].hash), OneField(fields[i]))];
      }
      assert pipe == FieldWrites(profileId, fields);
      ok := Exec(pipe, l);
    }

    method AddCustomRules(profileId: string, rules: seq<Rule>, l: Link) returns (ok: bool)
      modifies this
      ensures db == Run(old(db), Delivered(RulesQueue(profileId, rules), l.up))
      ensures ok <==> l.Carries(|RulesQueue(profileId, rules)|) && !AnyFails(old(db), RulesQueue(profileId, rules))
      ensures ok ==> Means(old(db), db, AddRules(profileId, rules))
      ensures ok && Typed(old(db), profileId) ==> RulesStored(db, profileId, rules)
    {
      ok := SendRules(profileId, rules, l);
      if ok {
        OpMeans(old(db), AddRules(profileId, rules));
        if Typed(old(db), profileId) {
          AddStores(old(db), profileId, rules);
        }
      }
    }

    /** The pipeline of an add; none is sent when there are no rules. */
    method SendRules(profileId: string, rules: seq<Rule>, l: Link) returns (ok: bool)
      modifies this
      ensures db == Run(old(db), Delivered(RulesQueue(profileId, rules), l.up))
      ensures ok <==> l.Carries(|RulesQueue(profileId, rules)|) && !AnyFails(old(db), RulesQueue(profileId, rules))
      ensures ok ==> db == Run(old(db), RulesQueue(profileId, rules))
    {
      if |rules| == 0 {
        return true;
      }
      var pipe, keys := QueueCustomRules(profileId, rules);
      ok := Exec(pipe, l);
    }

    /** Deletes a rule's hash and then its set member; done of the two arrived. */
    method RemoveCustomRule(profileId: string, ruleId: string, l: Link) returns (ok: bool, ghost done: nat)
      modifies this
      ensures done <= 2 && db == Run(old(db), RemoveRuleCommands(profileId, ruleId)[..done])
      ensures ok <==> l.Carries(2) && !AnyFails(old(db), RemoveRuleCommands(profileId, ruleId))
      ensures !ok ==> done == l.up || done > l.heard || AnyFails(old(db), RemoveRuleCommands(profileId, ruleId))
      ensures ok ==> Means(old(db), db, RemoveRule(profileId, ruleId))
      ensures ok && Typed(old(db), profileId) ==>
                && CustomRuleKey(profileId, ruleId) !in db.Elems(CustomRulesSetKey(profileId))
                && db.Fields(CustomRuleKey(profileId, ruleId)) == map[]
    {
      ok, done := RemoveBoth(profileId, ruleId, l);
      if ok {
        MeansOf(old(db), db, RemoveRule(profileId, ruleId), done);
        if Typed(old(db), profileId) {
          WholePrefix(RemoveRuleCommands(profileId, ruleId), 2);
          RemovalStores(old(db), profileId, ruleId);
        }
      }
    }

    /** The two commands of a removal. */
    method RemoveBoth(profileId: string, ruleId: string, l: Link) returns (ok: bool, ghost done: nat)
      modifies this
      ensures done <= 2 && db == Run(old(db), RemoveRuleCommands(profileId, ruleId)[..done])
      ensures ok <==> l.Carries(2) && !AnyFails(old(db), RemoveRuleCommands(profileId, ruleId))
      ensures !ok ==> done == l.up || done > l.heard || AnyFails(old(db), RemoveRuleCommands(profileId, ruleId))
      ensures ok ==> done == 2
    {
      ghost var cs := RemoveRuleCommands(profileId, ruleId);
      Sequence(old(db), cs, 0);
      Sequence(old(db), cs, 1);
      done := if l.up > 0 then 1 else 0;
      ok := Send(Del([CustomRuleKey(profileId, ruleId)]), l);
      if !ok {
        return;
      }
      done := if l.up > 1 then 2 else 1;
      ok := Send(SRem(CustomRulesSetKey(profileId), [CustomRuleKey(profileId, ruleId)]), l.Skip(1));
    }

    /**
     * Deletes the fixed keys, lists the rule set, deletes each listed hash and then the set,
     * stopping at the first failure; done of the deletions arrived.
     */
    method DeleteProfileSettings(profileId: string, l: Link)
        returns (ok: bool, ghost stored: seq<string>, ghost done: nat)
      modifies this
      ensures done <= |DeleteCommands(profileId, stored)|
      ensures db == Run(old(db), DeleteCommands(profileId, stored)[..done])
      ensures ok <==> Listable(old(db), profileId) && l.Carries(|DeleteCommands(profileId, stored)| + 1)
      ensures ok || done > 1 ==> Lists(stored, Index(old(db), profileId))
      ensures ok ==> Means(old(db), db, DeleteProfile(profileId, stored))
      ensures ok && Typed(old(db), profileId) ==>
                (Gone(db, profileId) <==> NoOrphan(old(db), profileId) && NoForeignNames(old(db), profileId))
    {
      ok, stored, done := DeleteEach(profileId, l);
      if ok {
        MeansOf(old(db), db, DeleteProfile(profileId, stored), done);
        if Typed(old(db), profileId) {
          WholePrefix(DeleteCommands(profileId, stored), done);
          DeleteCompleteIff(old(db), profileId, stored);
        }
      }
    }

    /** The commands of a deletion. */
    method DeleteEach(profileId: string, l: Link) returns (ok: bool, ghost stored: seq<string>, ghost done: nat)
      modifies this
      ensures done <= |DeleteCommands(profileId, stored)|
      ensures db == Run(old(db), DeleteCommands(profileId, stored)[..done])
      ensures ok <==> Listable(old(db), profileId) && l.Carries(|DeleteCommands(profileId, stored)| + 1)
      ensures ok ==> done == |DeleteCommands(profileId, stored)|
      ensures ok || done > 1 ==> Lists(stored, Index(old(db), profileId))
    {
      stored, done := [], if l.up > 0 then 1 else 0;
      FixedKeysFirst(db, profileId, []);
      ok := Send(Del(FixedKeys(profileId)), l);
      if !ok {
        return;
      }
      var listed := SMembers(CustomRulesSetKey(profileId), l.Skip(1));
      if listed.Err? {
        return false, [], 1;
      }
      stored := listed.value;
      FixedKeysFirst(old(db), profileId, stored);
      ok, done := DeleteListed(profileId, listed.value, l, old(db));
    }

    /** The part of a deletion that follows the listing; start is the state before all of it. */
    method DeleteListed(profileId: string, keys: seq<string>, l: Link, ghost start: Db)
        returns (ok: bool, ghost done: nat)
      requires db == Run(start, DeleteCommands(profileId, keys)[..1])
      modifies this
      ensures 1 <= done <= |DeleteCommands(profileId, keys)|
      ensures db == Run(start, DeleteCommands(profileId, keys)[..done])
      ensures ok <==> l.Skip(2).Carries(|keys| + 1)
      ensures ok ==> done == |DeleteCommands(profileId, keys)|
    {
      ghost var cs := DeleteCommands(profileId, keys);
      done := 1;
      for i := 0 to |keys|
        invariant done == i + 1 && l.Skip(2).Carries(i) && db == Run(start, cs[..i + 1])
      {
        RunStep(start, cs, i + 1);
        if l.Skip(2 + i).up > 0 {
          done := done + 1;
        }
        ok := Send(Del([keys[i]]), l.Skip(2 + i));
        if !ok {
          return;
        }
      }
      RunStep(start, cs, |keys| + 1);
      if l.Skip(2 + |keys|).up > 0 {
        done := done + 1;
      }
      ok := Send(Del([CustomRulesSetKey(profileId)]), l.Skip(2 + |keys|));
    }

    /** Appends to the blocklists or services of a profile. */
    method AppendToList(profileId: string, name: ListName, ids: seq<string>, l: Link) returns (ok: bool)
      modifies this
      ensures db == Run(old(db), Delivered(AppendCommands(profileId, name.Name(), ids), l.up))
      ensures ok <==> l.Carries(|AppendCommands(profileId, name.Name(), ids)|)
                      && !AnyFails(old(db), AppendCommands(profileId, name.Name(), ids))
      ensures ok ==> Means(old(db), db, Append(profileId, name, ids))
      ensures ok && ListTyped(old(db), ListKey(profileId, name)) ==>
                db.Items(ListKey(profileId, name)) == old(db).Items(ListKey(profileId, name)) + ids
    {
      ok := SendAppend(profileId, name, ids, l);
      if ok {
        AppendMeans(old(db), db, profileId, name, ids);
        if ListTyped(old(db), ListKey(profileId, name)) {
          AppendStores(old(db), profileId, name, ids);
        }
      }
    }

    /** The one command of an append; none is sent when there are no ids. */
    method SendAppend(profileId: string, name: ListName, ids: seq<string>, l: Link) returns (ok: bool)
      modifies this
      ensures db == Run(old(db), Delivered(AppendCommands(profileId, name.Name(), ids), l.up))
      ensures ok <==> l.Carries(|AppendCommands(profileId, name.Name(), ids)|)
                      && !AnyFails(old(db), AppendCommands(profileId, name.Name(), ids))
      ensures ok ==> db == Run(old(db), AppendCommands(profileId, name.Name(), ids))
    {
      if |ids| == 0 {
        return true;
      }
      ok := Exec([RPush(SettingsKey(profileId, name.Name()), ids)], l);
    }

    /** Removes every occurrence of each id, one LREM at a time, stopping at the first failure. */
    method RemoveFromList(profileId: string, name: ListName, ids: seq<string>, l: Link)
        returns (ok: bool, ghost done: nat)
      modifies this
      ensures done <= |ids| && db == Run(old(db), RemoveCommands(profileId, name.Name(), ids)[..done])
      ensures ok <==> l.Carries(|ids|) && !AnyFails(old(db), RemoveCommands(profileId, name.Name(), ids))
      ensures ok ==> Means(old(db), db, Remove(profileId, name, ids))
      ensures ok && ListTyped(old(db), ListKey(profileId, name)) ==>
                db.Items(ListKey(profileId, name)) == RemoveAll(old(db).Items(ListKey(profileId, name)), ids)
      ensures !ok ==> done == l.up || done > l.heard || AnyFails(old(db), RemoveCommands(profileId, name.Name(), ids))
    {
      ok, done := SendEach(RemoveCommands(profileId, name.Name(), ids), l);
      if ok {
        MeansOf(old(db), db, Remove(profileId, name, ids), done);
        if ListTyped(old(db), ListKey(profileId, name)) {
          RemoveStores(old(db), profileId, name, ids);
        }
      }
    }

    /** One command after the other, until one fails; done of them arrived. */
    method SendEach(cs: seq<Cmd>, l: Link) returns (ok: bool, ghost done: nat)
      modifies this
      ensures done <= |cs| && db == Run(old(db), cs[..done])
      ensures ok <==> l.Carries(|cs|) && !AnyFails(old(db), cs)
      ensures ok ==> cs[..done] == cs
      ensures !ok ==> done == l.up || done > l.heard || AnyFails(old(db), cs)
    {
      ok, done := true, 0;
      for i := 0 to |cs|
        invariant i == done && ok && l.Carries(i) && db == Run(old(db), cs[..i]) && !AnyFails(old(db), cs[..i])
      {
        Sequence(old(db), cs, i);
        if l.Skip(i).up > 0 {
          done := done + 1;
        }
        ok := Send(cs[i], l.Skip(i));
        if !ok {
          return;
        }
      }
      assert cs[..|cs|] == cs;
    }

    // ---------------------------------------------------------------- WebAuthn ceremonies

    method SaveCeremony(token: string, data: string, expiresIn: nat, l: Link) returns (ok: bool)
      modifies this
      ensures db == if l.up > 0 then Ceremonies.After(old(db), Ceremonies.Save(token, data, expiresIn)) else old(db)
      ensures ok <==> l.Answers()
    {
      ok := Put(CeremonyKey(token), data, expiresIn, l);
    }

    /** GETDEL, then decoding: a ceremony that does not decode, or whose reply is lost, is spent all the same. */
    method ConsumeCeremony(token: string, decodes: string -> bool, l: Link) returns (r: Result<string>)
      modifies this
      ensures db == if l.up > 0 then Ceremonies.After(old(db), Ceremonies.Consume(token, l.heard == 0)) else old(db)
      ensures r == if l.Answers() then Ceremonies.TakenValue(old(db), token, decodes) else Err
    {
      var key := CeremonyKey(token);
      if l.up == 0 || key !in db.keys || !db.keys[key].Str? {
        return Err;
      }
      var data := db.keys[key].text;
      db := db.Drop({key});
      r := if l.heard > 0 && decodes(data) then Ok(data) else Err;
    }
  }

  /** Can the profile's set of rule keys be listed? */
  predicate Listable(db: Db, profileId: string) {
    var k := CustomRulesSetKey(profileId);
    k in db.keys ==> db.keys[k].Members?
  }

  /** Whatever image the profile's keys encoded, they now encode what the operation makes of it. */
  ghost predicate Means(before: Db, after: Db, op: Op) {
    forall im :: Encodes(before, op.Profile(), im) ==> Encodes(after, op.Profile(), Meaning(im, op))
  }

  /** A run of all the commands of an operation. */
  lemma {:induction false} MeansOf(before: Db, after: Db, op: Op, n: nat)
    requires Listed(before, op) && n == |Commands(op)| && after == Run(before, Commands(op)[..n])
    ensures Means(before, after, op)
  {
    WholePrefix(Commands(op), n);
    assert after == Run(before, Commands(op));
    OpMeans(before, op);
  }

  lemma {:induction false} AppendMeans(before: Db, after: Db, p: string, name: ListName, ids: seq<string>)
    requires after == Run(before, AppendCommands(p, name.Name(), ids))
    ensures Means(before, after, Append(p, name, ids))
  {
    var op := Append(p, name, ids);
    assert Commands(op) == AppendCommands(p, name.Name(), ids);
    assert after == Run(before, Commands(op));
    OpMeans(before, op);
  }

  lemma {:induction false} WholePrefix(cs: seq<Cmd>, n: nat)
    requires n == |cs|
    ensures cs[..n] == cs
  {
  }

  lemma {:induction false} OpMeans(db: Db, op: Op)
    requires Listed(db, op)
    ensures Means(db, Run(db, Commands(op)), op)
  {
    forall im | Encodes(db, op.Profile(), im)
      ensures Encodes(Run(db, Commands(op)), op.Profile(), Meaning(im, op))
    {
      OpMeaning(db, op, im);
    }
  }

  /** Deleting the fixed keys leaves the rule set as it was listed. */
  lemma {:induction false} FixedKeysFirst(db: Db, profileId: string, stored: seq<string>)
    ensures Run(db, DeleteCommands(profileId, stored)[..0]) == db
    ensures Run(db, DeleteCommands(profileId, stored)[..1]) == Apply(db, Del(FixedKeys(profileId)))
    ensures Index(Apply(db, Del(FixedKeys(profileId))), profileId) == Index(db, profileId)
    ensures Listable(Apply(db, Del(FixedKeys(profileId))), profileId) <==> Listable(db, profileId)
    ensures !Fails(db, Del(FixedKeys(profileId)))
  {
    RunStep(db, DeleteCommands(profileId, stored), 0);
    FixedKeysOutside(profileId);
    Frame(db, Del(FixedKeys(profileId)), CustomRulesSetKey(profileId));
  }

  /** What one more command of a sequence does, and what its failure means for the whole. */
  lemma {:induction false} Sequence(db: Db, cs: seq<Cmd>, i: nat)
    requires i < |cs|
    ensures Run(db, cs[..i + 1]) == Apply(Run(db, cs[..i]), cs[i])
    ensures AnyFails(db, cs[..i + 1]) <==> AnyFails(db, cs[..i]) || Fails(Run(db, cs[..i]), cs[i])
    ensures AnyFails(db, cs[..i + 1]) ==> AnyFails(db, cs)
    ensures i + 1 == |cs| ==> cs[..i + 1] == cs
  {
    RunStep(db, cs, i);
    AnyFailsStep(db, cs, i);
  }

  lemma {:induction false} ElementsSnoc(values: seq<string>, x: string)
    ensures Elements(values + [x]) == Elements(values) + {x}
  {
  }

  lemma {:induction false} IncrReads(db: Db, key: string)
    requires !Fails(db, Cmd.Incr(key))
    ensures Apply(db, Cmd.Incr(key)).Counter(key) == Some(db.Counter(key).value + 1)
  {
    IntRoundTrip(db.Counter(key).value + 1);
  }
}
