/**
 * The session store and the two logins that share it: a password login checks and then saves, a
 * passkey login saves, then counts, and deletes its session again when the limit is reached.
 */
module Sessions {

  /** The account of every stored session, by token. */
  type Store = map<nat, string>

  function TokensOf(ss: Store, account: string): set<nat> {
    set t | t in ss && ss[t] == account
  }

  function CountOf(ss: Store, account: string): nat {
    |TokensOf(ss, account)|
  }

  function DeleteAll(ss: Store, account: string): Store {
    ss - TokensOf(ss, account)
  }

  function DeleteExcept(ss: Store, account: string, keep: nat): Store {
    ss - (TokensOf(ss, account) - {keep})
  }

  lemma {:induction false} RemovalsSpareOthers(ss: Store, account: string, keep: nat)
    ensures forall t :: t in DeleteAll(ss, account) <==> t in ss && ss[t] != account
    ensures forall t :: t in DeleteAll(ss, account) ==> DeleteAll(ss, account)[t] == ss[t]
    ensures forall t :: t in DeleteExcept(ss, account, keep) <==> t in ss && (ss[t] != account || t == keep)
    ensures forall t :: t in DeleteExcept(ss, account, keep) ==> DeleteExcept(ss, account, keep)[t] == ss[t]
  {
  }

  class SessionRepository {
    var sessions: Store

    constructor ()
      ensures sessions == map[]
    {
      sessions := map[];
    }

    /** Upserts a session under its token. */
    method SaveSession(token: nat, account: string, fails: bool) returns (ok: bool)
      modifies this
      ensures ok == !fails && sessions == if ok then old(sessions)[token := account] else old(sessions)
    {
      if !fails {
        sessions := sessions[token := account];
      }
      ok := !fails;
    }

    method DeleteSession(token: nat, fails: bool) returns (ok: bool)
      modifies this
      ensures ok == !fails && sessions == if ok then old(sessions) - {token} else old(sessions)
    {
      if !fails {
        sessions := sessions - {token};
      }
      ok := !fails;
    }

    method DeleteSessionsByAccountID(account: string, fails: bool) returns (ok: bool)
      modifies this
      ensures ok == !fails && sessions == if ok then DeleteAll(old(sessions), account) else old(sessions)
      ensures ok ==> forall t :: t in sessions <==> t in old(sessions) && old(sessions)[t] != account
      ensures ok ==> forall t :: t in sessions ==> sessions[t] == old(sessions)[t]
    {
      if !fails {
        sessions := DeleteAll(sessions, account);
      }
      ok := !fails;
    }

    method DeleteSessionsByAccountIDExceptCurrent(account: string, token: nat, fails: bool) returns (ok: bool)
      modifies this
      ensures ok == !fails && sessions == if ok then DeleteExcept(old(sessions), account, token) else old(sessions)
      ensures ok ==>
                forall t :: t in sessions <==> t in old(sessions) && (old(sessions)[t] != account || t == token)
      ensures ok ==> forall t :: t in sessions ==> sessions[t] == old(sessions)[t]
    {
      if !fails {
        sessions := DeleteExcept(sessions, account, token);
      }
      ok := !fails;
    }

    method CountSessionsByAccountID(account: string, fails: bool) returns (count: nat, ok: bool)
      ensures ok == !fails && (ok ==> count == CountOf(sessions, account))
    {
      count, ok := CountOf(sessions, account), !fails;
    }
  }

  datatype Outcome = Accepted | LimitReached | Failed

  /** Which store calls of a login fail. */
  datatype Faults = Faults(remove: bool, count: bool, save: bool, delete: bool)

  lemma {:induction false} CountAfterSave(ss: Store, account: string, token: nat)
    requires token !in ss
    ensures CountOf(ss[token := account], account) == CountOf(ss, account) + 1
  {
    assert TokensOf(ss[token := account], account) == TokensOf(ss, account) + {token};
  }

  lemma {:induction false} CountAfterDelete(ss: Store, account: string, token: nat)
    requires token in ss && ss[token] == account
    ensures CountOf(DeleteAll(ss, account), account) == 0
    ensures CountOf(DeleteExcept(ss, account, token), account) == 1
  {
    assert TokensOf(DeleteAll(ss, account), account) == {};
    assert TokensOf(DeleteExcept(ss, account, token), account) == {token};
  }

  lemma {:induction false} CountNone(ss: Store, account: string)
    ensures CountOf(DeleteAll(ss, account), account) == 0
  {
    assert TokensOf(DeleteAll(ss, account), account) == {};
  }

  /** Where a password login that nothing interrupts leaves the store, and its outcome. */
  function LoginEnd(ss: Store, limit: int, account: string, removeAll: bool, token: nat, f: Faults): (Store, Outcome) {
    if removeAll && f.remove then (ss, Failed)
    else if !removeAll && f.count then (ss, Failed)
    else if !removeAll && CountOf(ss, account) >= limit then (ss, LimitReached)
    else
      var ss' := if removeAll then DeleteAll(ss, account) else ss;
      if f.save then (ss', Failed) else (ss'[token := account], Accepted)
  }

  /** The same for a passkey login. */
  function FinishLoginEnd(ss: Store, limit: int, account: string, removeOthers: bool, token: nat, f: Faults)
      : (Store, Outcome)
  {
    var saved := ss[token := account];
    if f.save then (ss, Failed)
    else if removeOthers then
      if f.remove then (saved, Failed) else (DeleteExcept(saved, account, token), Accepted)
    else if f.count then (saved, Failed)
    else if CountOf(saved, account) < limit then (saved, Accepted)
    else (if f.delete then saved else saved - {token}, LimitReached)
  }

  /**
   * A password login that nothing interrupts. It is accepted up to the limit itself, and other
   * accounts are untouched.
   */
  method Login(repo: SessionRepository, limit: int, account: string, removeAll: bool, token: nat, f: Faults)
      returns (outcome: Outcome)
    requires token !in repo.sessions
    modifies repo
    ensures (repo.sessions, outcome) == LoginEnd(old(repo.sessions), limit, account, removeAll, token, f)
    ensures outcome == LimitReached <==> !removeAll && !f.count && CountOf(old(repo.sessions), account) >= limit
    ensures outcome == LimitReached ==> repo.sessions == old(repo.sessions)
    ensures outcome == Accepted <==>
              !f.save && if removeAll then !f.remove else !f.count && CountOf(old(repo.sessions), account) < limit
    ensures outcome == Accepted ==>
              && repo.sessions ==
                 (if removeAll then DeleteAll(old(repo.sessions), account) else old(repo.sessions))[token := account]
              && CountOf(repo.sessions, account) <= if removeAll then 1 else limit
    ensures forall t :: t in repo.sessions && repo.sessions[t] != account <==>
                        t in old(repo.sessions) && old(repo.sessions)[t] != account
    ensures forall t :: t in repo.sessions && t in old(repo.sessions) ==> repo.sessions[t] == old(repo.sessions)[t]
    ensures outcome == Accepted && removeAll ==>
              forall t :: t in repo.sessions && repo.sessions[t] == account <==> t == token
    ensures outcome == Failed ==>
              repo.sessions == old(repo.sessions)
              || (removeAll && repo.sessions == DeleteAll(old(repo.sessions), account))
  {
    if removeAll {
      var removed := repo.DeleteSessionsByAccountID(account, f.remove);
      if !removed {
        return Failed;
      }
      CountNone(old(repo.sessions), account);
    } else {
      var count, counted := repo.CountSessionsByAccountID(account, f.count);
      if !counted {
        return Failed;
      }
      if count >= limit {
        return LimitReached;
      }
    }
    CountAfterSave(repo.sessions, account, token);
    var saved := repo.SaveSession(token, account, f.save);
    outcome := if saved then Accepted else Failed;
  }

  /**
   * A passkey login that nothing interrupts. Its own session is counted, so it is accepted only
   * up to limit - 1; a rejected login leaves no session unless its deletion fails, and a failed
   * count or removal leaves the session stored.
   */
  method FinishLogin(repo: SessionRepository, limit: int, account: string, removeOthers: bool, token: nat, f: Faults)
      returns (outcome: Outcome)
    requires token !in repo.sessions
    modifies repo
    ensures (repo.sessions, outcome) == FinishLoginEnd(old(repo.sessions), limit, account, removeOthers, token, f)
    ensures outcome == LimitReached <==>
              !f.save && !removeOthers && !f.count && CountOf(old(repo.sessions), account) + 1 >= limit
    ensures outcome == LimitReached ==>
              repo.sessions == if f.delete then old(repo.sessions)[token := account] else old(repo.sessions)
    ensures outcome == Accepted <==>
              !f.save && if removeOthers then !f.remove
                         else !f.count && CountOf(old(repo.sessions), account) + 1 < limit
    ensures outcome == Accepted ==>
              && token in repo.sessions && repo.sessions[token] == account
              && CountOf(repo.sessions, account) <= (if removeOthers then 1 else limit - 1)
              && repo.sessions ==
                 (if removeOthers then DeleteExcept(old(repo.sessions)[token := account], account, token)
                  else old(repo.sessions)[token := account])
    ensures forall t :: t in repo.sessions && repo.sessions[t] != account <==>
                        t in old(repo.sessions) && old(repo.sessions)[t] != account
    ensures forall t :: t in repo.sessions && t in old(repo.sessions) ==> repo.sessions[t] == old(repo.sessions)[t]
    ensures outcome == Accepted && removeOthers ==>
              forall t :: t in repo.sessions && repo.sessions[t] == account <==> t == token
    ensures outcome == Failed ==>
              repo.sessions == if f.save then old(repo.sessions) else old(repo.sessions)[token := account]
  {
    var saved := repo.SaveSession(token, account, f.save);
    if !saved {
      return Failed;
    }
    CountAfterSave(old(repo.sessions), account, token);
    if removeOthers {
      var removed := repo.DeleteSessionsByAccountIDExceptCurrent(account, token, f.remove);
      if !removed {
        return Failed;
      }
      CountAfterDelete(old(repo.sessions)[token := account], account, token);
    } else {
      var count, counted := repo.CountSessionsByAccountID(account, f.count);
      if !counted {
        return Failed;
      }
      if count >= limit {
        var deleted := repo.DeleteSession(token, f.delete);
        assert old(repo.sessions)[token := account] - {token} == old(repo.sessions);
        return LimitReached;
      }
    }
    outcome := Accepted;
  }
}
