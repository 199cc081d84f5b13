/** Any interleaving of password logins, passkey logins, logouts and expiry on one session store. */
module LoginRaces {
  import opened Sessions

  /**
   * The configured limit, and the assumption on concurrency: at most pending password logins of an
   * account are between their check (or removal) and their save at once.
   */
  datatype Params = Params(limit: int, pending: nat)

  /** An authenticated login and how far it has got. */
  datatype Login =
    | Password(account: string, removeAll: bool, checked: bool)
    | Passkey(account: string, removeOthers: bool, stage: Stage)

  datatype Stage = Unsaved | Saved(token: nat) | Rejected(token: nat)

  /**
   * used holds every token ever issued, accepted those whose login was accepted, and left those of
   * passkey logins that failed after their save: in their count, their removal or their clean-up.
   */
  datatype State = State(sessions: Store, logins: map<nat, Login>, accepted: set<nat>, used: set<nat>, left: set<nat>)

  const INIT := State(map[], map[], {}, {}, {})

  /** One store call of one login, or an environment step; the Fails events are failed calls. */
  datatype Event =
    | Begin(id: nat, login: Login)
    | Check(id: nat)
    | RemoveAll(id: nat)
    | SavePassword(id: nat, token: nat)
    | SavePasskey(id: nat, token: nat)
    | Decide(id: nat)
    | RemoveOthers(id: nat)
    | Reject(id: nat)
    | CallFails(id: nat)
    | Leave(token: nat)

  /** The stored sessions of an account whose login was accepted. */
  function AcceptedOf(s: State, account: string): set<nat> {
    TokensOf(s.sessions, account) * s.accepted
  }

  predicate IsPending(l: Login, account: string) {
    l.Password? && l.checked && l.account == account
  }

  /** The password logins of an account that will save without looking again. */
  function PendingOf(s: State, account: string): set<nat> {
    set id | id in s.logins && IsPending(s.logins[id], account)
  }

  /** A passkey login that has saved its session and has not yet accepted or deleted it. */
  predicate InFlight(l: Login) {
    l.Passkey? && !l.stage.Unsaved?
  }

  predicate Enabled(p: Params, s: State, e: Event) {
    match e
    case Begin(id, l) =>
      id !in s.logins && (l.Password? ==> !l.checked) && (l.Passkey? ==> l.stage == Unsaved)
    case Check(id) =>
      && id in s.logins && s.logins[id].Password? && !s.logins[id].removeAll && !s.logins[id].checked
      && (CountOf(s.sessions, s.logins[id].account) < p.limit ==>
            |PendingOf(s, s.logins[id].account)| < p.pending)
    case RemoveAll(id) =>
      && id in s.logins && s.logins[id].Password? && s.logins[id].removeAll && !s.logins[id].checked
      && |PendingOf(s, s.logins[id].account)| < p.pending
    case SavePassword(id, t) => id in s.logins && s.logins[id].Password? && s.logins[id].checked && t !in s.used
    case SavePasskey(id, t) => id in s.logins && s.logins[id].Passkey? && s.logins[id].stage == Unsaved && t !in s.used
    case Decide(id) =>
      id in s.logins && s.logins[id].Passkey? && s.logins[id].stage.Saved? && !s.logins[id].removeOthers
    case RemoveOthers(id) =>
      id in s.logins && s.logins[id].Passkey? && s.logins[id].stage.Saved? && s.logins[id].removeOthers
    case Reject(id) => id in s.logins && s.logins[id].Passkey? && s.logins[id].stage.Rejected?
    case CallFails(id) => id in s.logins
    case Leave(_) => true
  }

  function After(p: Params, s: State, e: Event): State
    requires Enabled(p, s, e)
  {
    match e
    case Begin(id, l) => s.(logins := s.logins[id := l])
    case Check(id) =>
      if CountOf(s.sessions, s.logins[id].account) >= p.limit then s.(logins := s.logins - {id})
      else s.(logins := s.logins[id := s.logins[id].(checked := true)])
    case RemoveAll(id) =>
      s.(sessions := DeleteAll(s.sessions, s.logins[id].account),
         logins := s.logins[id := s.logins[id].(checked := true)])
    case SavePassword(id, t) =>
      s.(sessions := s.sessions[t := s.logins[id].account], logins := s.logins - {id},
         accepted := s.accepted + {t}, used := s.used + {t})
    case SavePasskey(id, t) =>
      s.(sessions := s.sessions[t := s.logins[id].account],
         logins := s.logins[id := s.logins[id].(stage := Saved(t))], used := s.used + {t})
    case Decide(id) =>
      var l := s.logins[id];
      if CountOf(s.sessions, l.account) >= p.limit then
        s.(logins := s.logins[id := l.(stage := Rejected(l.stage.token))])
      else s.(logins := s.logins - {id}, accepted := s.accepted + {l.stage.token})
    case RemoveOthers(id) =>
      var l := s.logins[id];
      s.(sessions := DeleteExcept(s.sessions, l.account, l.stage.token), logins := s.logins - {id},
         accepted := s.accepted + {l.stage.token})
    case Reject(id) => s.(sessions := s.sessions - {s.logins[id].stage.token}, logins := s.logins - {id})
    case CallFails(id) =>
      var l := s.logins[id];
      s.(logins := s.logins - {id}, left := if InFlight(l) then s.left + {l.stage.token} else s.left)
    case Leave(t) => s.(sessions := s.sessions - {t})
  }

  predicate Admissible(p: Params, s: State, es: seq<Event>)
    decreases |es|
  {
    es == [] || (Enabled(p, s, es[0]) && Admissible(p, After(p, s, es[0]), es[1..]))
  }

  function Run(p: Params, s: State, es: seq<Event>): State
    requires Admissible(p, s, es)
    decreases |es|
  {
    if es == [] then s else Run(p, After(p, s, es[0]), es[1..])
  }

  ghost predicate Reachable(p: Params, s: State) {
    exists es :: Admissible(p, INIT, es) && Run(p, INIT, es) == s
  }

  lemma {:induction false} RunSnoc(p: Params, s: State, es: seq<Event>, e: Event)
    requires Admissible(p, s, es) && Enabled(p, Run(p, s, es), e)
    ensures Admissible(p, s, es + [e]) && Run(p, s, es + [e]) == After(p, Run(p, s, es), e)
    decreases |es|
  {
    if es == [] {
      assert es + [e] == [e];
    } else {
      assert (es + [e])[1..] == es[1..] + [e];
      RunSnoc(p, After(p, s, es[0]), es[1..], e);
    }
  }

  // ------------------------------------------------------------------ logins that run alone

  /** The store calls of a password login, one after the other, failing as f says. */
  function PasswordCalls(p: Params, s: State, id: nat, token: nat, f: Faults): seq<Event>
    requires id in s.logins && s.logins[id].Password?
  {
    var l, fail := s.logins[id], [CallFails(id)];
    var save := if f.save then fail else [SavePassword(id, token)];
    if l.removeAll then (if f.remove then fail else [RemoveAll(id)] + save)
    else if f.count then fail
    else if CountOf(s.sessions, l.account) >= p.limit then [Check(id)]
    else [Check(id)] + save
  }

  function PasskeyCalls(p: Params, s: State, id: nat, token: nat, f: Faults): seq<Event>
    requires id in s.logins && s.logins[id].Passkey?
  {
    var l, fail := s.logins[id], [CallFails(id)];
    if f.save then fail
    else [SavePasskey(id, token)]
         + if (if l.removeOthers then f.remove else f.count) then fail
           else if l.removeOthers then [RemoveOthers(id)]
           else [Decide(id)] + if CountOf(s.sessions[token := l.account], l.account) < p.limit then []
                               else if f.delete then fail else [Reject(id)]
  }

  lemma {:induction false} RunOne(p: Params, s: State, e: Event)
    requires Enabled(p, s, e)
    ensures Admissible(p, s, [e]) && Run(p, s, [e]) == After(p, s, e)
  {
    RunSnoc(p, s, [], e);
  }

  lemma {:induction false} RunCons(p: Params, s: State, e: Event, es: seq<Event>)
    requires Enabled(p, s, e) && Admissible(p, After(p, s, e), es)
    ensures Admissible(p, s, [e] + es) && Run(p, s, [e] + es) == Run(p, After(p, s, e), es)
  {
    assert ([e] + es)[1..] == es;
  }

  /** The events of a password login with no other event in between are the login as a method. */
  lemma {:induction false} PasswordAlone(p: Params, s: State, id: nat, token: nat, f: Faults)
    requires id in s.logins && s.logins[id].Password? && !s.logins[id].checked
    requires token !in s.used && token !in s.sessions
    requires |PendingOf(s, s.logins[id].account)| < p.pending
    ensures var l, es := s.logins[id], PasswordCalls(p, s, id, token, f);
            && Admissible(p, s, es)
            && var end := LoginEnd(s.sessions, p.limit, l.account, l.removeAll, token, f);
            && Run(p, s, es).sessions == end.0 && id !in Run(p, s, es).logins
            && Run(p, s, es).accepted == if end.1 == Accepted then s.accepted + {token} else s.accepted
  {
    var l, es := s.logins[id], PasswordCalls(p, s, id, token, f);
    RunOne(p, s, es[0]);
    if |es| == 2 {
      RunOne(p, After(p, s, es[0]), es[1]);
      RunCons(p, s, es[0], [es[1]]);
      assert es == [es[0]] + [es[1]];
    } else {
      assert es == [es[0]];
    }
  }

  lemma {:induction false} PasskeyAlone(p: Params, s: State, id: nat, token: nat, f: Faults)
    requires id in s.logins && s.logins[id].Passkey? && s.logins[id].stage.Unsaved?
    requires token !in s.used && token !in s.sessions
    ensures var l, es := s.logins[id], PasskeyCalls(p, s, id, token, f);
            && Admissible(p, s, es)
            && var end := FinishLoginEnd(s.sessions, p.limit, l.account, l.removeOthers, token, f);
            && Run(p, s, es).sessions == end.0 && id !in Run(p, s, es).logins
            && Run(p, s, es).accepted == if end.1 == Accepted then s.accepted + {token} else s.accepted
  {
    var es := PasskeyCalls(p, s, id, token, f);
    RunOne(p, s, es[0]);
    if |es| == 1 {
      assert es == [es[0]];
    } else {
      var s1 := After(p, s, es[0]);
      RunOne(p, s1, es[1]);
      if |es| == 3 {
        RunOne(p, After(p, s1, es[1]), es[2]);
        RunCons(p, s1, es[1], [es[2]]);
      }
      assert es[1..] == [es[1]] + es[2..] && (|es| == 3 ==> es[2..] == [es[2]]);
      RunCons(p, s, es[0], es[1..]);
      assert es == [es[0]] + es[1..];
    }
  }

  // ------------------------------------------------------------------ the bound

  /** The most sessions a passkey login can leave accepted. */
  function Base(limit: int): nat {
    if limit <= 2 then 1 else limit - 1
  }

  /** The most accepted sessions and pending logins that password logins alone can reach. */
  function PasswordRoom(p: Params): nat {
    if p.pending == 0 then 0 else (if p.limit <= 1 then 0 else p.limit - 1) + p.pending
  }

  ghost predicate Bounded(p: Params, s: State, account: string, b: nat) {
    && |PendingOf(s, account)| <= p.pending
    && |AcceptedOf(s, account)| + |PendingOf(s, account)| <= b
  }

  ghost predicate Inv(p: Params, s: State, b: nat) {
    && s.sessions.Keys <= s.used && s.accepted <= s.used
    && forall account :: Bounded(p, s, account, b)
  }

  lemma {:induction false} Smaller(a: set<nat>, b: set<nat>)
    requires a <= b
    ensures |a| <= |b|
    decreases b
  {
    if b != {} {
      var x :| x in b;
      if x in a {
        Smaller(a - {x}, b - {x});
        assert |a| == |a - {x}| + 1;
      } else {
        Smaller(a, b - {x});
      }
    }
  }

  /** An account whose pending logins and accepted sessions do not grow stays bounded. */
  lemma {:induction false} NoGrowth(p: Params, s: State, s': State, account: string, b: nat)
    requires Bounded(p, s, account, b)
    requires PendingOf(s', account) <= PendingOf(s, account) && AcceptedOf(s', account) <= AcceptedOf(s, account)
    ensures Bounded(p, s', account, b)
  {
    Smaller(PendingOf(s', account), PendingOf(s, account));
    Smaller(AcceptedOf(s', account), AcceptedOf(s, account));
  }

  /** A login that has just counted fewer than n + 1 sessions, or has removed all but n. */
  lemma {:induction false} JustDecided(p: Params, s': State, account: string, n: nat, b: nat)
    requires |PendingOf(s', account)| <= p.pending && CountOf(s'.sessions, account) <= n && n + p.pending <= b
    ensures Bounded(p, s', account, b)
  {
    Smaller(AcceptedOf(s', account), TokensOf(s'.sessions, account));
  }

  lemma {:induction false} MorePending(s: State, s': State, id: nat, account: string)
    requires id in s.logins && s.logins[id].Password? && !s.logins[id].checked
    requires s'.logins == s.logins[id := s.logins[id].(checked := true)]
    ensures PendingOf(s', account) == PendingOf(s, account) + (if s.logins[id].account == account then {id} else {})
    ensures |PendingOf(s', account)| == |PendingOf(s, account)| + (if s.logins[id].account == account then 1 else 0)
  {
    assert id !in PendingOf(s, account);
  }

  lemma {:induction false} CheckStep(p: Params, s: State, id: nat, account: string, b: nat)
    requires Inv(p, s, b) && Enabled(p, s, Check(id)) && PasswordRoom(p) <= b
    ensures Bounded(p, After(p, s, Check(id)), account, b)
  {
    var s' := After(p, s, Check(id));
    assert Bounded(p, s, account, b);
    if s'.logins == s.logins - {id} {
      NoGrowth(p, s, s', account, b);
    } else {
      MorePending(s, s', id, account);
      if s.logins[id].account == account {
        JustDecided(p, s', account, p.limit - 1, b);
      }
    }
  }

  lemma {:induction false} RemoveAllStep(p: Params, s: State, id: nat, account: string, b: nat)
    requires Inv(p, s, b) && Enabled(p, s, RemoveAll(id)) && PasswordRoom(p) <= b
    ensures Bounded(p, After(p, s, RemoveAll(id)), account, b)
  {
    var s' := After(p, s, RemoveAll(id));
    assert Bounded(p, s, account, b);
    MorePending(s, s', id, account);
    if s.logins[id].account == account {
      CountNone(s.sessions, account);
      JustDecided(p, s', account, 0, b);
    } else {
      assert AcceptedOf(s', account) == AcceptedOf(s, account);
    }
  }

  lemma {:induction false} PendingAfterSave(s: State, s': State, id: nat, account: string)
    requires id in s.logins && IsPending(s.logins[id], account) && s'.logins == s.logins - {id}
    ensures |PendingOf(s, account)| == |PendingOf(s', account)| + 1
  {
    assert PendingOf(s, account) == PendingOf(s', account) + {id};
  }

  lemma {:induction false} AcceptedAfterSave(s: State, s': State, t: nat, account: string)
    requires t !in s.sessions && s'.accepted == s.accepted + {t} && s'.sessions == s.sessions[t := account]
    ensures |AcceptedOf(s', account)| == |AcceptedOf(s, account)| + 1
  {
    assert TokensOf(s'.sessions, account) == TokensOf(s.sessions, account) + {t};
    OneMore(TokensOf(s.sessions, account), s.accepted, t);
  }

  lemma {:induction false} OneMore(tokens: set<nat>, accepted: set<nat>, t: nat)
    requires t !in tokens
    ensures |(tokens + {t}) * (accepted + {t})| == |tokens * accepted| + 1
  {
    assert (tokens + {t}) * (accepted + {t}) == tokens * accepted + {t};
  }

  lemma {:induction false} SavePasswordStep(p: Params, s: State, id: nat, t: nat, account: string, b: nat)
    requires Inv(p, s, b) && Enabled(p, s, SavePassword(id, t))
    ensures Bounded(p, After(p, s, SavePassword(id, t)), account, b)
  {
    var s' := After(p, s, SavePassword(id, t));
    assert Bounded(p, s, account, b) && t !in s.sessions;
    if s.logins[id].account == account {
      PendingAfterSave(s, s', id, account);
      AcceptedAfterSave(s, s', t, account);
    } else {
      NoGrowth(p, s, s', account, b);
    }
  }

  lemma {:induction false} PasskeyStep(p: Params, s: State, e: Event, account: string, b: nat)
    requires Inv(p, s, b) && Enabled(p, s, e) && (e.Decide? || e.RemoveOthers?)
    requires AllSavedOwn(s) && Base(p.limit) + p.pending <= b
    ensures Bounded(p, After(p, s, e), account, b)
  {
    var s', l := After(p, s, e), s.logins[e.id];
    assert Bounded(p, s, account, b);
    assert PendingOf(s', account) == PendingOf(s, account);
    if l.account == account && e.RemoveOthers? {
      assert TokensOf(s'.sessions, account) <= {l.stage.token};
      Smaller(TokensOf(s'.sessions, account), {l.stage.token});
      JustDecided(p, s', account, 1, b);
    } else if l.account == account && CountOf(s.sessions, account) < p.limit {
      JustDecided(p, s', account, p.limit - 1, b);
    } else {
      NoGrowth(p, s, s', account, b);
    }
  }

  /** A saved session that is still stored belongs to the account of the login that saved it. */
  ghost predicate AllSavedOwn(s: State) {
    forall id :: id in s.logins && InFlight(s.logins[id]) ==>
      var t := s.logins[id].stage.token;
      t in s.used && (t in s.sessions ==> s.sessions[t] == s.logins[id].account)
  }

  lemma {:induction false} OwnStep(p: Params, s: State, e: Event)
    requires s.sessions.Keys <= s.used && AllSavedOwn(s) && Enabled(p, s, e)
    ensures AllSavedOwn(After(p, s, e))
  {
  }

  predicate Quiet(e: Event) {
    e.Begin? || e.SavePasskey? || e.Reject? || e.CallFails? || e.Leave?
  }

  lemma {:induction false} QuietPending(p: Params, s: State, e: Event, account: string)
    requires Enabled(p, s, e) && Quiet(e)
    ensures PendingOf(After(p, s, e), account) <= PendingOf(s, account)
  {
  }

  lemma {:induction false} QuietAccepted(p: Params, s: State, e: Event, account: string)
    requires Enabled(p, s, e) && Quiet(e)
    requires e.SavePasskey? ==> e.token !in s.accepted
    ensures AcceptedOf(After(p, s, e), account) <= AcceptedOf(s, account)
  {
  }

  /** A login that begins, saves, gives up or deletes its own session, or a session that leaves. */
  lemma {:induction false} QuietStep(p: Params, s: State, e: Event, account: string, b: nat)
    requires Bounded(p, s, account, b) && Enabled(p, s, e) && Quiet(e)
    requires e.SavePasskey? ==> e.token !in s.accepted
    ensures Bounded(p, After(p, s, e), account, b)
  {
    QuietPending(p, s, e, account);
    QuietAccepted(p, s, e, account);
    NoGrowth(p, s, After(p, s, e), account, b);
  }

  lemma {:induction false} BoundedStep(p: Params, s: State, e: Event, account: string, b: nat)
    requires Inv(p, s, b) && AllSavedOwn(s) && Enabled(p, s, e) && PasswordRoom(p) <= b
    requires e.Decide? || e.RemoveOthers? ==> Base(p.limit) + p.pending <= b
    ensures Bounded(p, After(p, s, e), account, b)
  {
    match e
    case Check(id) => CheckStep(p, s, id, account, b);
    case RemoveAll(id) => RemoveAllStep(p, s, id, account, b);
    case SavePassword(id, t) => SavePasswordStep(p, s, id, t, account, b);
    case Decide(_) => PasskeyStep(p, s, e, account, b);
    case RemoveOthers(_) => PasskeyStep(p, s, e, account, b);
    case _ =>
      assert Bounded(p, s, account, b);
      QuietStep(p, s, e, account, b);
  }

  lemma {:induction false} UsedStep(p: Params, s: State, e: Event)
    requires s.sessions.Keys <= s.used && s.accepted <= s.used && AllSavedOwn(s) && Enabled(p, s, e)
    ensures After(p, s, e).sessions.Keys <= After(p, s, e).used && After(p, s, e).accepted <= After(p, s, e).used
  {
  }

  /** Every step keeps every account within b, if b has room for the decisions that are taken. */
  lemma {:induction false} InvStep(p: Params, s: State, e: Event, b: nat)
    requires Inv(p, s, b) && AllSavedOwn(s) && Enabled(p, s, e) && PasswordRoom(p) <= b
    requires e.Decide? || e.RemoveOthers? ==> Base(p.limit) + p.pending <= b
    ensures Inv(p, After(p, s, e), b)
  {
    UsedStep(p, s, e);
    forall account ensures Bounded(p, After(p, s, e), account, b) {
      BoundedStep(p, s, e, account, b);
    }
  }

  lemma {:induction false} InvRun(p: Params, s: State, es: seq<Event>)
    requires Inv(p, s, Base(p.limit) + p.pending) && AllSavedOwn(s) && Admissible(p, s, es)
    ensures Inv(p, Run(p, s, es), Base(p.limit) + p.pending)
    decreases |es|
  {
    if es != [] {
      InvStep(p, s, es[0], Base(p.limit) + p.pending);
      OwnStep(p, s, es[0]);
      InvRun(p, After(p, s, es[0]), es[1..]);
    }
  }

  lemma {:induction false} InitInv(p: Params, b: nat)
    ensures Inv(p, INIT, b) && AllSavedOwn(INIT)
  {
    forall a ensures Bounded(p, INIT, a, b) {
      assert PendingOf(INIT, a) == {} && AcceptedOf(INIT, a) == {};
    }
  }

  /**
   * In every interleaving, the accepted stored sessions of an account plus its pending password
   * logins never exceed max(1, limit - 1) + pending. With pending = 0 this is the bound for
   * passkey logins alone.
   */
  lemma {:induction false} MixedLoginsBounded(p: Params, s: State, account: string)
    requires Reachable(p, s)
    ensures |AcceptedOf(s, account)| + |PendingOf(s, account)| <= Base(p.limit) + p.pending
  {
    var es :| Admissible(p, INIT, es) && Run(p, INIT, es) == s;
    InitInv(p, Base(p.limit) + p.pending);
    InvRun(p, INIT, es);
    assert Bounded(p, s, account, Base(p.limit) + p.pending);
  }
}
