/**
 * The rules of a profile after two operations whose commands interleave: which pairs always leave
 * every rule hash listed, and which always leave every listed rule with its hash.
 */
module OverlappingRules {
  import opened Redis
  import opened Keys
  import opened ProfileSettings
  import opened CustomRules
  import opened RuleConcurrency
  import opened SettingsMirror
  import opened MirrorHistory
  import opened RuleOperations

  // ------------------------------------------------------------------ two operations

  /** Two operations on one profile whose rules have the right kinds of value. */
  ghost predicate Pair(db: Db, one: Op, two: Op) {
    && one.Profile() == two.Profile() && Typed(db, one.Profile()) && Proper(one) && Proper(two)
  }

  lemma {:induction false} InterleavedHas(a: seq<Cmd>, b: seq<Cmd>, c: seq<Cmd>)
    requires Interleaves(a, b, c)
    ensures forall x :: x in c <==> x in a || x in b
    decreases |c|
  {
    if c != [] {
      assert forall x :: x in c <==> x == c[0] || x in c[1..];
      if a != [] && c[0] == a[0] && Interleaves(a[1..], b, c[1..]) {
        assert forall x :: x in a <==> x == a[0] || x in a[1..];
        InterleavedHas(a[1..], b, c[1..]);
      } else {
        assert forall x :: x in b <==> x == b[0] || x in b[1..];
        InterleavedHas(a, b[1..], c[1..]);
      }
    }
  }

  /** The store after an interleaving, at one rule key. */
  lemma {:induction false} PairStatus(db: Db, one: Op, two: Op, merged: seq<Cmd>, k: string)
    requires Pair(db, one, two) && IsRuleKey(one.Profile(), k)
    requires Interleaves(Commands(one), Commands(two), merged)
    ensures StatusOf(Run(db, merged), one.Profile(), k) ==
            Effects(one.Profile(), merged, k, StatusOf(db, one.Profile(), k))
    ensures Typed(Run(db, merged), one.Profile())
    ensures forall c :: c in merged ==> Respects(one.Profile(), c)
    ensures Does(one.Profile(), merged, k, WritesRule(one, k) || WritesRule(two, k),
                 WritesRule(one, k) || WritesRule(two, k),
                 DropsRule(one, k) || one.DeleteProfile? || DropsRule(two, k) || two.DeleteProfile?,
                 DropsRule(one, k) || DropsRule(two, k))
  {
    OpRespects(one);
    OpRespects(two);
    InterleavedHas(Commands(one), Commands(two), merged);
    EffectsSound(db, one.Profile(), merged);
    OpDoes(one, k);
    OpDoes(two, k);
    DoesBoth(one.Profile(), Commands(one), Commands(two), merged, k);
  }

  /** How the key ends: bare, and listed. */
  lemma {:induction false} PairEnd(db: Db, one: Op, two: Op, merged: seq<Cmd>, k: string)
    requires Pair(db, one, two) && IsRuleKey(one.Profile(), k)
    requires Interleaves(Commands(one), Commands(two), merged)
    ensures var p, db' := one.Profile(), Run(db, merged);
            && (db'.Fields(k) == map[] <==> EndsBare(merged, k) || (db.Fields(k) == map[] && !SomeWrites(merged, k)))
            && (k in Index(db', p) <==> EndsListed(p, merged, k) || (k in Index(db, p) && !SomeUnlists(p, merged, k)))
            && (EndsBare(merged, k) ==> DropsRule(one, k) || DropsRule(two, k))
            && (EndsListed(p, merged, k) ==> WritesRule(one, k) || WritesRule(two, k))
  {
    PairStatus(db, one, two, merged, k);
    HashAfterAll(one.Profile(), merged, k, StatusOf(db, one.Profile(), k));
    IndexAfterAll(one.Profile(), merged, k, StatusOf(db, one.Profile(), k));
    EndsHappen(one.Profile(), merged, k);
  }

  lemma {:induction false} NotBoth(op: Op, k: string)
    requires Proper(op)
    ensures !(WritesRule(op, k) && DropsRule(op, k)) && !(WritesRule(op, k) && UnlistsLast(op, k))
  {
  }

  // ------------------------------------------------------------------ listed rules keep their hashes

  /** One operation writes k and the other drops it. */
  ghost predicate WriteMeetsDrop(one: Op, two: Op, k: string) {
    WritesRule(one, k) && DropsRule(two, k)
  }

  lemma {:induction false} NoDanglingAt(db: Db, one: Op, two: Op, merged: seq<Cmd>, k: string)
    requires Pair(db, one, two) && IsRuleKey(one.Profile(), k) && NoDangling(db, one.Profile())
    requires Interleaves(Commands(one), Commands(two), merged)
    requires !WriteMeetsDrop(one, two, k) && !WriteMeetsDrop(two, one, k)
    ensures k in Index(Run(db, merged), one.Profile()) ==> Run(db, merged).Fields(k) != map[]
  {
    PairStatus(db, one, two, merged, k);
    PairEnd(db, one, two, merged, k);
    NotBoth(one, k);
    NotBoth(two, k);
  }

  lemma {:induction false} TakeFirst(x: seq<Cmd>, a: seq<Cmd>, b: seq<Cmd>, c: seq<Cmd>)
    requires Interleaves(a, b, c)
    ensures Interleaves(x + a, b, x + c)
    decreases |x|
  {
    if x == [] {
      assert x + a == a && x + c == c;
    } else {
      assert (x + a)[1..] == x[1..] + a && (x + c)[1..] == x[1..] + c;
      TakeFirst(x[1..], a, b, c);
    }
  }

  lemma {:induction false} TakeSecond(x: seq<Cmd>, a: seq<Cmd>, b: seq<Cmd>, c: seq<Cmd>)
    requires Interleaves(a, b, c)
    ensures Interleaves(a, x + b, x + c)
    decreases |x|
  {
    if x == [] {
      assert x + b == b && x + c == c;
    } else {
      assert (x + b)[1..] == x[1..] + b && (x + c)[1..] == x[1..] + c;
      TakeSecond(x[1..], a, b, c);
    }
  }

  lemma {:induction false} Exchanged(a: seq<Cmd>, b: seq<Cmd>, c: seq<Cmd>)
    requires Interleaves(a, b, c)
    ensures Interleaves(b, a, c)
    decreases |c|
  {
    if c != [] {
      if a != [] && c[0] == a[0] && Interleaves(a[1..], b, c[1..]) {
        Exchanged(a[1..], b, c[1..]);
      } else {
        Exchanged(a, b[1..], c[1..]);
      }
    }
  }

  /** All of b between the two parts of the other. */
  lemma {:induction false} Inside(x: seq<Cmd>, y: seq<Cmd>, b: seq<Cmd>)
    ensures Interleaves(x + y, b, x + (b + y))
  {
    assert y + [] == y && b + [] == b;
    assert Interleaves([], [], []);
    TakeFirst(y, [], [], []);
    TakeSecond(b, y, [], y);
    TakeFirst(x, y, b, b + y);
  }

  /** A writing operation around its SADD: writes come before it, and what follows leaves k alone. */
  lemma {:induction false} AroundListing(op: Op, k: string) returns (before: seq<Cmd>, after: seq<Cmd>)
    requires Proper(op) && WritesRule(op, k) && IsRuleKey(op.Profile(), k)
    ensures var list := SAdd(CustomRulesSetKey(op.Profile()), RuleKeys(op.Profile(), WantedBy(op)));
            && Commands(op) == before + ([list] + after) && Enlists(op.Profile(), list, k)
    ensures forall c :: c in after ==> !Touches(op.Profile(), c, k)
  {
    var p, rules := op.Profile(), WantedBy(op);
    var list := SAdd(CustomRulesSetKey(p), RuleKeys(p, rules));
    if op.Update? {
      var stale := Stale(op.stored, Elements(RuleKeys(p, rules)));
      before, after := SettingsWrites(op.st) + RuleWrites(p, rules), StaleQueue(p, stale);
      Regrouped(SettingsWrites(op.st), RuleWrites(p, rules), list, after);
      SetKeyIsNoRuleKey(p);
      forall c | c in after ensures !Touches(p, c, k) {
        assert c == SRem(CustomRulesSetKey(p), stale) || c == Del(stale);
      }
    } else {
      before, after := RuleWrites(p, rules), [];
      assert [list] + [] == [list];
    }
  }

  lemma {:induction false} Regrouped(a: seq<Cmd>, b: seq<Cmd>, c: Cmd, d: seq<Cmd>)
    ensures a + ((b + [c]) + d) == (a + b) + ([c] + d)
  {
  }

  /** The whole other operation runs just before the SADD of the writing one. */
  lemma {:induction false} DanglingArises(db: Db, one: Op, two: Op, k: string) returns (merged: seq<Cmd>)
    requires Pair(db, one, two) && IsRuleKey(one.Profile(), k) && WriteMeetsDrop(one, two, k)
    ensures Interleaves(Commands(one), Commands(two), merged)
    ensures k in Index(Run(db, merged), one.Profile()) && Run(db, merged).Fields(k) == map[]
  {
    var p, list := one.Profile(), SAdd(CustomRulesSetKey(one.Profile()), RuleKeys(one.Profile(), WantedBy(one)));
    var before, after := AroundListing(one, k);
    Inside(before, [list] + after, Commands(two));
    merged := before + (Commands(two) + ([list] + after));
    OpDoes(two, k);
    NotBoth(two, k);
    ListedLast(p, before, Commands(two), list, after, k);
    PairEnd(db, one, two, merged, k);
  }

  lemma {:induction false} ListedLast(p: string, before: seq<Cmd>, other: seq<Cmd>, list: Cmd, after: seq<Cmd>,
                                      k: string)
    requires Enlists(p, list, k) && SomeDrops(other, k) && !SomeWrites(other, k)
    requires forall c :: c in after ==> !Touches(p, c, k)
    ensures var merged := before + (other + ([list] + after));
            EndsBare(merged, k) && EndsListed(p, merged, k)
  {
    var merged := before + (other + ([list] + after));
    var n := |before| + |other|;
    assert merged[n] == list;
    assert forall j :: n < j < |merged| ==> merged[j] in after;
    var drop :| drop in other && Drops(drop, k);
    var i :| 0 <= i < |other| && other[i] == drop;
    assert merged[|before| + i] == drop;
    forall j | |before| + i < j < |merged| ensures !Writes(merged[j], k) {
      assert merged[j] in other || j >= n;
    }
  }

  /**
   * Two operations leave every listed rule with its hash, however their commands interleave, if
   * and only if no rule is written by one of them and dropped by the other.
   */
  lemma {:induction false} PairsKeepNoDanglingIff(db: Db, one: Op, two: Op)
    requires Pair(db, one, two) && NoDangling(db, one.Profile())
    ensures (forall merged :: Interleaves(Commands(one), Commands(two), merged) ==>
               NoDangling(Run(db, merged), one.Profile()))
            <==> forall k :: IsRuleKey(one.Profile(), k) ==>
                   !WriteMeetsDrop(one, two, k) && !WriteMeetsDrop(two, one, k)
  {
    var p := one.Profile();
    if k: string :| IsRuleKey(p, k) && WriteMeetsDrop(one, two, k) {
      var merged := DanglingArises(db, one, two, k);
    } else if k: string :| IsRuleKey(p, k) && WriteMeetsDrop(two, one, k) {
      var merged := DanglingArises(db, two, one, k);
      Exchanged(Commands(two), Commands(one), merged);
    } else {
      forall merged | Interleaves(Commands(one), Commands(two), merged) ensures NoDangling(Run(db, merged), p) {
        SafeKeys(db, one, two, merged);
      }
    }
  }

  lemma {:induction false} SafeKeys(db: Db, one: Op, two: Op, merged: seq<Cmd>)
    requires Pair(db, one, two) && NoDangling(db, one.Profile())
    requires Interleaves(Commands(one), Commands(two), merged)
    requires forall k :: IsRuleKey(one.Profile(), k) ==>
               !WriteMeetsDrop(one, two, k) && !WriteMeetsDrop(two, one, k)
    ensures NoDangling(Run(db, merged), one.Profile())
  {
    RuleKeyIsRuleKey(one.Profile(), "");
    PairStatus(db, one, two, merged, CustomRuleKey(one.Profile(), ""));
    forall k | k in Index(Run(db, merged), one.Profile()) ensures Run(db, merged).Fields(k) != map[] {
      NoDanglingAt(db, one, two, merged, k);
    }
  }

  // ------------------------------------------------------------------ rule hashes stay listed

  /** One operation writes k and the other ends by unlisting it. */
  ghost predicate WriteMeetsUnlisting(one: Op, two: Op, k: string) {
    WritesRule(one, k) && UnlistsLast(two, k)
  }

  /** Will a later command list k or drop its hash? */
  ghost predicate Resolves(p: string, cs: seq<Cmd>, k: string) {
    SomeEnlists(p, cs, k) || SomeDrops(cs, k)
  }

  /** Every write and every unlisting of k is followed by its listing or by the drop of its hash. */
  ghost predicate Settles(p: string, cs: seq<Cmd>, k: string)
    decreases |cs|
  {
    cs == [] ||
    (&& (Writes(cs[0], k) || Unlists(p, cs[0], k) ==> Resolves(p, cs[1..], k))
     && Settles(p, cs[1..], k))
  }

  predicate Orphan(st: Status) {
    st.hash != map[] && !st.indexed
  }

  lemma {:induction false} StillResolved(p: string, a: seq<Cmd>, b: seq<Cmd>, k: string, st: Status)
    requires a != [] && Settles(p, a, k)
    requires Orphan(st) ==> Resolves(p, a, k) || Resolves(p, b, k)
    ensures Orphan(Effect(p, a[0], k, st)) ==> Resolves(p, a[1..], k) || Resolves(p, b, k)
  {
    assert forall c :: c in a <==> c == a[0] || c in a[1..];
    DoesOne(p, a[0], k);
    DoesBoth(p, [a[0]], a[1..], a, k);
  }

  /** Interleaved pipelines that settle a key leave no orphan under it. */
  lemma {:induction false} OverlapSettles(p: string, a: seq<Cmd>, b: seq<Cmd>, c: seq<Cmd>, k: string, st: Status)
    requires Interleaves(a, b, c) && Settles(p, a, k) && Settles(p, b, k)
    requires Orphan(st) ==> Resolves(p, a, k) || Resolves(p, b, k)
    ensures !Orphan(Effects(p, c, k, st))
    decreases |c|
  {
    if c != [] {
      if a != [] && c[0] == a[0] && Interleaves(a[1..], b, c[1..]) {
        StillResolved(p, a, b, k, st);
        OverlapSettles(p, a[1..], b, c[1..], k, Effect(p, c[0], k, st));
      } else {
        StillResolved(p, b, a, k, st);
        OverlapSettles(p, a, b[1..], c[1..], k, Effect(p, c[0], k, st));
      }
    }
  }

  lemma {:induction false} SettlesConcat(p: string, a: seq<Cmd>, b: seq<Cmd>, k: string)
    requires Settles(p, a, k) && Settles(p, b, k)
    ensures Settles(p, a + b, k)
    decreases |a|
  {
    if a == [] {
      assert a + b == b;
    } else {
      assert (a + b)[1..] == a[1..] + b;
      SettlesConcat(p, a[1..], b, k);
      DoesBoth(p, a[1..], b, a[1..] + b, k);
    }
  }

  lemma {:induction false} SettlesUntouched(p: string, cs: seq<Cmd>, k: string)
    requires forall c :: c in cs ==> !Touches(p, c, k)
    ensures Settles(p, cs, k)
    decreases |cs|
  {
    if cs != [] {
      assert cs[0] in cs;
      SettlesUntouched(p, cs[1..], k);
    }
  }

  /** Writes that a last command lists. */
  lemma {:induction false} SettlesListed(p: string, ws: seq<Cmd>, last: Cmd, k: string)
    requires forall w :: w in ws ==> w.HSet? && (Writes(w, k) ==> Enlists(p, last, k))
    requires last.SAdd?
    ensures Settles(p, ws + [last], k)
    decreases |ws|
  {
    if ws == [] {
      assert ws + [last] == [last];
      assert [last][1..] == [];
    } else {
      assert (ws + [last])[1..] == ws[1..] + [last];
      assert ws[0] in ws && last in ws[1..] + [last];
      SettlesListed(p, ws[1..], last, k);
    }
  }

  lemma {:induction false} QueueSettles(p: string, rules: seq<Rule>, k: string)
    ensures Settles(p, RulesQueue(p, rules), k)
  {
    if rules != [] {
      var keys := RuleKeys(p, rules);
      assert forall i :: 0 <= i < |rules| ==> keys[i] == CustomRuleKey(p, rules[i].id);
      SettlesListed(p, RuleWrites(p, rules), SAdd(CustomRulesSetKey(p), keys), k);
    }
  }

  lemma {:induction false} StaleSettles(p: string, stale: seq<string>, k: string)
    requires AllRuleKeys(p, stale)
    ensures Settles(p, StaleQueue(p, stale), k)
  {
    SetKeyIsNoRuleKey(p);
    if stale != [] {
      var q := StaleQueue(p, stale);
      assert q[1..] == [Del(stale)] && q[1..][1..] == [];
      assert k in stale ==> Drops(q[1..][0], k) && q[1..][0] in q[1..];
    }
  }

  lemma {:induction false} UpdateSettles(st: Settings, stored: seq<string>, k: string)
    requires AllRuleKeys(st.profileId, stored) && IsRuleKey(st.profileId, k)
    ensures Settles(st.profileId, UpdateCommands(st, stored), k)
  {
    var p := st.profileId;
    var stale := Stale(stored, Elements(RuleKeys(p, st.rules)));
    SettingsWritesApart(st, k);
    SettlesUntouched(p, SettingsWrites(st), k);
    QueueSettles(p, st.rules, k);
    StaleSettles(p, stale, k);
    SettlesConcat(p, RulesQueue(p, st.rules), StaleQueue(p, stale), k);
    SettlesConcat(p, SettingsWrites(st), ReplaceQueue(p, st.rules, stored), k);
  }

  lemma {:induction false} OpSettles(op: Op, k: string)
    requires Proper(op) && IsRuleKey(op.Profile(), k) && !UnlistsLast(op, k)
    ensures Settles(op.Profile(), Commands(op), k)
  {
    match op
    case Update(st, stored) => UpdateSettles(st, stored, k);
    case AddRules(p, rules) => QueueSettles(p, rules, k);
    case RemoveRule(p, ruleId) =>
      SetKeyIsNoRuleKey(p);
      RuleKeyIsRuleKey(p, ruleId);
      SettlesUntouched(p, RemoveRuleCommands(p, ruleId), k);
    case _ =>
      PlainOpApart(op, k);
      SettlesUntouched(op.Profile(), Commands(op), k);
  }

  /** A deletion lists the set before anything else changes it. */
  ghost predicate ListedFirst(db: Db, op: Op) {
    op.DeleteProfile? ==> Lists(op.stored, Index(db, op.Profile()))
  }

  lemma {:induction false} NoOrphanAt(db: Db, one: Op, two: Op, merged: seq<Cmd>, k: string)
    requires Pair(db, one, two) && IsRuleKey(one.Profile(), k) && NoOrphan(db, one.Profile())
    requires ListedFirst(db, one) && ListedFirst(db, two)
    requires Interleaves(Commands(one), Commands(two), merged)
    requires !WriteMeetsUnlisting(one, two, k) && !WriteMeetsUnlisting(two, one, k)
    ensures !Orphan(StatusOf(Run(db, merged), one.Profile(), k))
  {
    NotBoth(one, k);
    NotBoth(two, k);
    PairStatus(db, one, two, merged, k);
    if WritesRule(one, k) || WritesRule(two, k) {
      OpSettles(one, k);
      OpSettles(two, k);
      OverlapSettles(one.Profile(), Commands(one), Commands(two), merged, k, StatusOf(db, one.Profile(), k));
    } else {
      UnwrittenAt(db, one, two, merged, k);
    }
  }

  /** A rule that nobody writes is unlisted only together with its hash. */
  lemma {:induction false} UnwrittenAt(db: Db, one: Op, two: Op, merged: seq<Cmd>, k: string)
    requires Pair(db, one, two) && IsRuleKey(one.Profile(), k) && NoOrphan(db, one.Profile())
    requires ListedFirst(db, one) && ListedFirst(db, two)
    requires Interleaves(Commands(one), Commands(two), merged)
    requires !WritesRule(one, k) && !WritesRule(two, k)
    ensures !Orphan(StatusOf(Run(db, merged), one.Profile(), k))
  {
    PairStatus(db, one, two, merged, k);
    PairEnd(db, one, two, merged, k);
    assert forall s: seq<string>, x :: x in s <==> x in Elements(s);
    if SomeDrops(merged, k) {
      var d :| d in merged && Drops(d, k);
      var i :| 0 <= i < |merged| && merged[i] == d;
      assert forall j :: i < j < |merged| ==> merged[j] in merged;
      assert EndsBare(merged, k);
    }
  }

  /** The operation that ends by unlisting k, before its last command. */
  lemma {:induction false} BeforeUnlisting(op: Op, k: string) returns (before: seq<Cmd>, last: Cmd)
    requires Proper(op) && UnlistsLast(op, k) && IsRuleKey(op.Profile(), k)
    ensures Commands(op) == before + [last] && Unlists(op.Profile(), last, k) && !Drops(last, k)
  {
    var index := CustomRulesSetKey(op.Profile());
    SetKeyIsNoRuleKey(op.Profile());
    if op.RemoveRule? {
      before, last := [Del([CustomRuleKey(op.p, op.ruleId)])], SRem(index, [CustomRuleKey(op.p, op.ruleId)]);
    } else {
      before, last := [Del(FixedKeys(op.p))] + KeyDeletes(op.stored), Del([index]);
    }
  }

  /** The whole writing operation runs just before the last command of the other. */
  lemma {:induction false} OrphanArises(db: Db, one: Op, two: Op, k: string) returns (merged: seq<Cmd>)
    requires Pair(db, one, two) && IsRuleKey(one.Profile(), k) && WriteMeetsUnlisting(one, two, k)
    ensures Interleaves(Commands(one), Commands(two), merged)
    ensures !NoOrphan(Run(db, merged), one.Profile())
  {
    var before, last := BeforeUnlisting(two, k);
    Inside(before, [last], Commands(one));
    merged := before + (Commands(one) + [last]);
    Exchanged(Commands(two), Commands(one), merged);
    OpDoes(one, k);
    NotBoth(one, k);
    UnlistedAtEnd(one.Profile(), before, Commands(one), last, k);
    PairStatus(db, one, two, merged, k);
    PairEnd(db, one, two, merged, k);
    assert Orphan(StatusOf(Run(db, merged), one.Profile(), k));
    NoOrphanStatus(Run(db, merged), one.Profile());
  }

  lemma {:induction false} UnlistedAtEnd(p: string, before: seq<Cmd>, other: seq<Cmd>, last: Cmd, k: string)
    requires Unlists(p, last, k) && !Drops(last, k) && SomeWrites(other, k) && !SomeDrops(other, k)
    ensures var merged := before + (other + [last]);
            !EndsBare(merged, k) && !EndsListed(p, merged, k)
  {
    var merged := before + (other + [last]);
    var n := |merged| - 1;
    assert merged[n] == last;
    var write :| write in other && Writes(write, k);
    var i :| 0 <= i < |other| && other[i] == write;
    assert merged[|before| + i] == write;
    forall j | |before| <= j < |merged| ensures !Drops(merged[j], k) {
      assert j < n ==> merged[j] in other;
    }
  }

  /**
   * Two operations leave every rule hash listed, however their commands interleave, if and only if
   * neither writes a rule that the other removes, or any rule beside a deletion of the profile.
   */
  lemma {:induction false} PairsKeepNoOrphanIff(db: Db, one: Op, two: Op)
    requires Pair(db, one, two) && NoOrphan(db, one.Profile()) && ListedFirst(db, one) && ListedFirst(db, two)
    ensures (forall merged :: Interleaves(Commands(one), Commands(two), merged) ==>
               NoOrphan(Run(db, merged), one.Profile()))
            <==> forall k :: IsRuleKey(one.Profile(), k) ==>
                   !WriteMeetsUnlisting(one, two, k) && !WriteMeetsUnlisting(two, one, k)
  {
    var p := one.Profile();
    if k: string :| IsRuleKey(p, k) && WriteMeetsUnlisting(one, two, k) {
      var merged := OrphanArises(db, one, two, k);
    } else if k: string :| IsRuleKey(p, k) && WriteMeetsUnlisting(two, one, k) {
      var merged := OrphanArises(db, two, one, k);
      Exchanged(Commands(two), Commands(one), merged);
    } else {
      forall merged | Interleaves(Commands(one), Commands(two), merged) ensures NoOrphan(Run(db, merged), p) {
        ListedKeys(db, one, two, merged);
      }
    }
  }

  lemma {:induction false} ListedKeys(db: Db, one: Op, two: Op, merged: seq<Cmd>)
    requires Pair(db, one, two) && NoOrphan(db, one.Profile()) && ListedFirst(db, one) && ListedFirst(db, two)
    requires Interleaves(Commands(one), Commands(two), merged)
    requires forall k :: IsRuleKey(one.Profile(), k) ==>
               !WriteMeetsUnlisting(one, two, k) && !WriteMeetsUnlisting(two, one, k)
    ensures NoOrphan(Run(db, merged), one.Profile())
  {
    forall k | IsRuleKey(one.Profile(), k) ensures !Orphan(StatusOf(Run(db, merged), one.Profile(), k)) {
      NoOrphanAt(db, one, two, merged, k);
    }
    NoOrphanStatus(Run(db, merged), one.Profile());
  }

  lemma {:induction false} NoOrphanStatus(db: Db, p: string)
    ensures NoOrphan(db, p) <==> forall k :: IsRuleKey(p, k) ==> !Orphan(StatusOf(db, p, k))
  {
  }

  // ------------------------------------------------------------------ two updates

  /** a keeps a stored rule that b does not want. */
  ghost predicate Keeps(p: string, a: seq<Rule>, b: seq<Rule>, stored: seq<string>, k: string) {
    Wanted(p, a, k) && k in stored && !Wanted(p, b, k)
  }

  /**
   * Two updates of a profile leave every listed rule with its hash, however they overlap, if and
   * only if neither keeps a rule that the other removes. They never leave a hash unlisted.
   */
  lemma {:induction false} UpdatesKeepNoDanglingIff(db: Db, one: Settings, two: Settings, storedOne: seq<string>,
                                                    storedTwo: seq<string>)
    requires one.profileId == two.profileId && Typed(db, one.profileId) && NoDangling(db, one.profileId)
    requires AllRuleKeys(one.profileId, storedOne) && AllRuleKeys(one.profileId, storedTwo)
    ensures (forall merged :: Interleaves(UpdateCommands(one, storedOne), UpdateCommands(two, storedTwo), merged) ==>
               NoDangling(Run(db, merged), one.profileId))
            <==> forall k :: !Keeps(one.profileId, one.rules, two.rules, storedTwo, k)
                             && !Keeps(one.profileId, two.rules, one.rules, storedOne, k)
  {
    var p, a, b := one.profileId, Update(one, storedOne), Update(two, storedTwo);
    assert Commands(a) == UpdateCommands(one, storedOne) && Commands(b) == UpdateCommands(two, storedTwo);
    PairsKeepNoDanglingIff(db, a, b);
    WantedAreRuleKeys(p, one.rules);
    WantedAreRuleKeys(p, two.rules);
    forall k
      ensures WriteMeetsDrop(a, b, k) <==> Keeps(p, one.rules, two.rules, storedTwo, k)
      ensures WriteMeetsDrop(b, a, k) <==> Keeps(p, two.rules, one.rules, storedOne, k)
    {
    }
  }

  /** If both listed the set before either changed it: exactly when they want the same of the listed rules. */
  lemma {:induction false} UpdatesAgreeIff(db: Db, one: Settings, two: Settings, storedOne: seq<string>,
                                           storedTwo: seq<string>)
    requires one.profileId == two.profileId && Typed(db, one.profileId) && NoDangling(db, one.profileId)
    requires Lists(storedOne, Index(db, one.profileId)) && Lists(storedTwo, Index(db, one.profileId))
    ensures (forall merged :: Interleaves(UpdateCommands(one, storedOne), UpdateCommands(two, storedTwo), merged) ==>
               NoDangling(Run(db, merged), one.profileId))
            <==> forall k :: k in Index(db, one.profileId) ==>
                   (Wanted(one.profileId, one.rules, k) <==> Wanted(one.profileId, two.rules, k))
  {
    var p := one.profileId;
    ListsMembers(db, p, storedOne);
    ListsMembers(db, p, storedTwo);
    UpdatesKeepNoDanglingIff(db, one, two, storedOne, storedTwo);
    forall k
      ensures !Keeps(p, one.rules, two.rules, storedTwo, k) && !Keeps(p, two.rules, one.rules, storedOne, k)
              <==> (k in Index(db, p) ==> (Wanted(p, one.rules, k) <==> Wanted(p, two.rules, k)))
    {
    }
  }

  /** However two updates of a profile overlap, they leave every rule hash listed. */
  lemma {:induction false} OverlapKeepsNoOrphan(db: Db, one: Settings, two: Settings, storedOne: seq<string>,
                                                storedTwo: seq<string>, merged: seq<Cmd>)
    requires one.profileId == two.profileId && Typed(db, one.profileId) && NoOrphan(db, one.profileId)
    requires AllRuleKeys(one.profileId, storedOne) && AllRuleKeys(one.profileId, storedTwo)
    requires Interleaves(UpdateCommands(one, storedOne), UpdateCommands(two, storedTwo), merged)
    ensures NoOrphan(Run(db, merged), one.profileId)
  {
    var a, b := Update(one, storedOne), Update(two, storedTwo);
    assert Commands(a) == UpdateCommands(one, storedOne) && Commands(b) == UpdateCommands(two, storedTwo);
    PairsKeepNoOrphanIff(db, a, b);
  }
}
