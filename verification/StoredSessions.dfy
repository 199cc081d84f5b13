/**
 * What the session store holds: accepted sessions, those of passkey logins under way, and those
 * that failed passkey logins left behind.
 */
module StoredSessions {
  import opened Sessions
  import opened LoginRaces

  /** The passkey logins of an account between their save and their end. */
  function FlightsOf(s: State, account: string): set<nat> {
    set id | id in s.logins && InFlight(s.logins[id]) && s.logins[id].account == account
  }

  function SavedBy(logins: map<nat, Login>, ids: set<nat>): set<nat> {
    set id | id in ids && id in logins && InFlight(logins[id]) :: logins[id].stage.token
  }

  /** The stored sessions of those logins. */
  function FlightTokensOf(s: State, account: string): set<nat> {
    TokensOf(s.sessions, account) * SavedBy(s.logins, FlightsOf(s, account))
  }

  /** The stored sessions that failed passkey logins left behind. */
  function LeftOf(s: State, account: string): set<nat> {
    TokensOf(s.sessions, account) * s.left
  }

  /** No token is claimed twice, and every stored session is claimed. */
  ghost predicate Claimed(s: State) {
    && s.sessions.Keys <= s.used && s.accepted <= s.used && s.left <= s.used && s.accepted !! s.left
    && AllSavedOwn(s)
    && (forall id :: id in s.logins && InFlight(s.logins[id]) ==> Unclaimed(s, s.logins[id].stage.token))
    && (forall i, j :: i in s.logins && j in s.logins && i != j && InFlight(s.logins[i]) && InFlight(s.logins[j]) ==>
          s.logins[i].stage.token != s.logins[j].stage.token)
    && (forall t :: t in s.sessions ==> !Unclaimed(s, t) || Flying(s, t))
  }

  predicate Unclaimed(s: State, t: nat) {
    t !in s.accepted && t !in s.left
  }

  ghost predicate Flying(s: State, t: nat) {
    exists id :: id in s.logins && InFlight(s.logins[id]) && s.logins[id].stage.token == t
  }

  /** Every other login goes on as it was. */
  lemma {:induction false} OthersStay(p: Params, s: State, e: Event, id: nat)
    requires Enabled(p, s, e) && id in s.logins && InFlight(s.logins[id]) && (e.Begin? || e.Leave? || e.id != id)
    ensures id in After(p, s, e).logins && After(p, s, e).logins[id] == s.logins[id]
  {
  }

  lemma {:induction false} FlyingStays(p: Params, s: State, e: Event, t: nat)
    requires Claimed(s) && Enabled(p, s, e) && t in After(p, s, e).sessions && t in s.sessions
    ensures !Unclaimed(After(p, s, e), t) || Flying(After(p, s, e), t)
  {
    if Unclaimed(s, t) {
      var id :| id in s.logins && InFlight(s.logins[id]) && s.logins[id].stage.token == t;
      if e.Begin? || e.Leave? || e.id != id {
        OthersStay(p, s, e, id);
      } else if e.Decide? && id in After(p, s, e).logins {
        assert After(p, s, e).logins[id].stage == Rejected(t);
      }
    }
  }

  lemma {:induction false} NewFlies(p: Params, s: State, e: Event, t: nat)
    requires Claimed(s) && Enabled(p, s, e) && t in After(p, s, e).sessions && t !in s.sessions
    ensures !Unclaimed(After(p, s, e), t) || Flying(After(p, s, e), t)
  {
    if e.SavePasskey? {
      assert After(p, s, e).logins[e.id].stage == Saved(t);
    }
  }

  /** A login in flight after an event was so before, with its token, or has just saved. */
  lemma {:induction false} FlightBefore(p: Params, s: State, e: Event, id: nat)
    requires Enabled(p, s, e) && id in After(p, s, e).logins && InFlight(After(p, s, e).logins[id])
    ensures || (e == SavePasskey(id, After(p, s, e).logins[id].stage.token))
            || (id in s.logins && InFlight(s.logins[id])
                && s.logins[id].stage.token == After(p, s, e).logins[id].stage.token)
  {
  }

  /** Only the login that ends can have its token claimed. */
  lemma {:induction false} ClaimedBy(p: Params, s: State, e: Event, t: nat)
    requires Enabled(p, s, e) && Unclaimed(s, t) && !Unclaimed(After(p, s, e), t)
    ensures || (e.SavePassword? && e.token == t)
            || ((e.Decide? || e.RemoveOthers? || e.CallFails?) && InFlight(s.logins[e.id])
                && s.logins[e.id].stage.token == t && e.id !in After(p, s, e).logins)
  {
  }

  lemma {:induction false} FlightUnclaimed(p: Params, s: State, e: Event, id: nat)
    requires Claimed(s) && Enabled(p, s, e) && id in After(p, s, e).logins && InFlight(After(p, s, e).logins[id])
    ensures Unclaimed(After(p, s, e), After(p, s, e).logins[id].stage.token)
  {
    var t := After(p, s, e).logins[id].stage.token;
    FlightBefore(p, s, e, id);
    if !Unclaimed(After(p, s, e), t) {
      assert Unclaimed(s, t);
      ClaimedBy(p, s, e, t);
      assert false;
    }
  }

  lemma {:induction false} FlightsDiffer(p: Params, s: State, e: Event, i: nat, j: nat)
    requires Claimed(s) && Enabled(p, s, e) && i != j
    requires i in After(p, s, e).logins && InFlight(After(p, s, e).logins[i])
    requires j in After(p, s, e).logins && InFlight(After(p, s, e).logins[j])
    ensures After(p, s, e).logins[i].stage.token != After(p, s, e).logins[j].stage.token
  {
    FlightBefore(p, s, e, i);
    FlightBefore(p, s, e, j);
  }

  lemma {:induction false} SetsStep(p: Params, s: State, e: Event)
    requires Claimed(s) && Enabled(p, s, e)
    ensures var s' := After(p, s, e);
            s'.sessions.Keys <= s'.used && s'.accepted <= s'.used && s'.left <= s'.used && s'.accepted !! s'.left
  {
  }

  lemma {:induction false} ClaimedStep(p: Params, s: State, e: Event)
    requires Claimed(s) && Enabled(p, s, e)
    ensures Claimed(After(p, s, e))
  {
    var s' := After(p, s, e);
    SetsStep(p, s, e);
    OwnStep(p, s, e);
    forall id | id in s'.logins && InFlight(s'.logins[id]) ensures Unclaimed(s', s'.logins[id].stage.token) {
      FlightUnclaimed(p, s, e, id);
    }
    forall i, j | i in s'.logins && j in s'.logins && i != j && InFlight(s'.logins[i]) && InFlight(s'.logins[j])
      ensures s'.logins[i].stage.token != s'.logins[j].stage.token
    {
      FlightsDiffer(p, s, e, i, j);
    }
    forall t | t in s'.sessions ensures !Unclaimed(s', t) || Flying(s', t) {
      if t in s.sessions {
        FlyingStays(p, s, e, t);
      } else {
        NewFlies(p, s, e, t);
      }
    }
  }

  lemma {:induction false} ClaimedRun(p: Params, s: State, es: seq<Event>)
    requires Claimed(s) && Admissible(p, s, es)
    ensures Claimed(Run(p, s, es))
    decreases |es|
  {
    if es != [] {
      ClaimedStep(p, s, es[0]);
      ClaimedRun(p, After(p, s, es[0]), es[1..]);
    }
  }

  lemma {:induction false} ReachableClaimed(p: Params, s: State)
    requires Reachable(p, s)
    ensures Claimed(s)
  {
    var es :| Admissible(p, INIT, es) && Run(p, INIT, es) == s;
    ClaimedRun(p, INIT, es);
  }

  lemma {:induction false} FlightClaims(s: State, account: string, t: nat)
    requires Claimed(s) && t in TokensOf(s.sessions, account)
    ensures Unclaimed(s, t) <==> t in FlightTokensOf(s, account)
  {
    if Unclaimed(s, t) {
      var id :| id in s.logins && InFlight(s.logins[id]) && s.logins[id].stage.token == t;
      assert id in FlightsOf(s, account);
    }
  }

  lemma {:induction false} ClaimedPartition(s: State, account: string)
    requires Claimed(s)
    ensures TokensOf(s.sessions, account) == AcceptedOf(s, account) + FlightTokensOf(s, account) + LeftOf(s, account)
    ensures AcceptedOf(s, account) !! FlightTokensOf(s, account)
    ensures LeftOf(s, account) !! AcceptedOf(s, account) + FlightTokensOf(s, account)
  {
    forall t | t in TokensOf(s.sessions, account)
      ensures t in FlightTokensOf(s, account) <==> t !in s.accepted && t !in s.left
    {
      FlightClaims(s, account, t);
    }
  }

  /**
   * In every reachable state an account's stored sessions are exactly its accepted ones, those of
   * its passkey logins in flight and those left behind, and no session is two of these.
   */
  lemma {:induction false} StoredPartition(p: Params, s: State, account: string)
    requires Reachable(p, s)
    ensures TokensOf(s.sessions, account) == AcceptedOf(s, account) + FlightTokensOf(s, account) + LeftOf(s, account)
    ensures CountOf(s.sessions, account) ==
            |AcceptedOf(s, account)| + |FlightTokensOf(s, account)| + |LeftOf(s, account)|
  {
    ReachableClaimed(p, s);
    ClaimedPartition(s, account);
  }

  lemma {:induction false} FewTokens(logins: map<nat, Login>, ids: set<nat>)
    ensures |SavedBy(logins, ids)| <= |ids|
    decreases ids
  {
    if ids != {} {
      var x :| x in ids;
      FewTokens(logins, ids - {x});
      var rest := SavedBy(logins, ids - {x});
      if x in logins && InFlight(logins[x]) {
        assert SavedBy(logins, ids) == rest + {logins[x].stage.token};
      } else {
        assert SavedBy(logins, ids) == rest;
      }
    }
  }

  /** A login in flight accounts for at most one stored session. */
  lemma {:induction false} FlightsCover(s: State, account: string)
    ensures |FlightTokensOf(s, account)| <= |FlightsOf(s, account)|
  {
    FewTokens(s.logins, FlightsOf(s, account));
    Smaller(FlightTokensOf(s, account), SavedBy(s.logins, FlightsOf(s, account)));
  }

  /** Stored sessions and pending password logins together. */
  lemma {:induction false} StoredBounded(p: Params, s: State, account: string)
    requires Reachable(p, s)
    ensures CountOf(s.sessions, account) + |PendingOf(s, account)|
            <= Base(p.limit) + p.pending + |FlightsOf(s, account)| + |LeftOf(s, account)|
  {
    StoredPartition(p, s, account);
    FlightsCover(s, account);
    MixedLoginsBounded(p, s, account);
  }

  /** No step of a login touches the sessions of another account. */
  lemma {:induction false} OtherAccountsKept(p: Params, s: State, e: Event, account: string)
    requires Reachable(p, s) && Enabled(p, s, e) && !e.Leave?
    requires !e.Begin? ==> s.logins[e.id].account != account
    ensures forall t :: t in After(p, s, e).sessions && After(p, s, e).sessions[t] == account <==>
                        t in s.sessions && s.sessions[t] == account
  {
    ReachableClaimed(p, s);
  }
}
