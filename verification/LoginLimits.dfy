/** Runs that reach the bounds on accepted and on stored sessions, so that both are exact. */
module LoginLimits {
  import opened Sessions
  import opened LoginRaces
  import opened StoredSessions

  /** How many passkey logins of an account may be in flight, and how many left sessions stored. */
  datatype Window = Window(flights: nat, left: nat)

  ghost predicate Within(s: State, w: Window) {
    forall account :: |FlightsOf(s, account)| <= w.flights && |LeftOf(s, account)| <= w.left
  }

  /** Do all states of the run stay within the window? */
  ghost predicate StaysWithin(p: Params, s: State, es: seq<Event>, w: Window)
    requires Admissible(p, s, es)
    decreases |es|
  {
    Within(s, w) && (es != [] ==> StaysWithin(p, After(p, s, es[0]), es[1..], w))
  }

  ghost predicate ReachableIn(p: Params, w: Window, s: State) {
    exists es :: Admissible(p, INIT, es) && StaysWithin(p, INIT, es, w) && Run(p, INIT, es) == s
  }

  lemma {:induction false} InIsReachable(p: Params, w: Window, s: State)
    requires ReachableIn(p, w, s)
    ensures Reachable(p, s)
  {
  }

  lemma {:induction false} WithinSnoc(p: Params, s: State, es: seq<Event>, e: Event, w: Window)
    requires Admissible(p, s, es) && StaysWithin(p, s, es, w)
    requires Enabled(p, Run(p, s, es), e) && Within(After(p, Run(p, s, es), e), w)
    ensures Admissible(p, s, es + [e]) && StaysWithin(p, s, es + [e], w)
    decreases |es|
  {
    RunSnoc(p, s, es, e);
    if es == [] {
      assert es + [e] == [e];
      assert StaysWithin(p, After(p, s, e), [], w);
    } else {
      assert (es + [e])[1..] == es[1..] + [e];
      WithinSnoc(p, After(p, s, es[0]), es[1..], e, w);
    }
  }

  lemma {:induction false} EndsWithin(p: Params, s: State, es: seq<Event>, w: Window)
    requires Admissible(p, s, es) && StaysWithin(p, s, es, w)
    ensures Within(Run(p, s, es), w)
    decreases |es|
  {
    if es != [] {
      EndsWithin(p, After(p, s, es[0]), es[1..], w);
    }
  }

  lemma {:induction false} GoesOn(p: Params, w: Window, s: State, e: Event)
    requires ReachableIn(p, w, s) && Enabled(p, s, e) && Within(After(p, s, e), w)
    ensures ReachableIn(p, w, After(p, s, e))
  {
    var es :| Admissible(p, INIT, es) && StaysWithin(p, INIT, es, w) && Run(p, INIT, es) == s;
    WithinSnoc(p, INIT, es, e, w);
    RunSnoc(p, INIT, es, e);
  }

  /** r contains the initial state and every step within the window from its states. */
  ghost predicate Closed(p: Params, w: Window, r: iset<State>) {
    && INIT in r
    && forall s, e {:trigger After(p, s, e) in r} :: s in r && Enabled(p, s, e) && Within(After(p, s, e), w) ==>
        After(p, s, e) in r
  }

  lemma {:induction false} Goes(p: Params, w: Window, r: iset<State>, s: State, e: Event, s': State)
    requires Closed(p, w, r) && s in r && Enabled(p, s, e) && After(p, s, e) == s' && Within(s', w)
    ensures s' in r
  {
    assert After(p, s, e) in r;
  }

  ghost function Reached(p: Params, w: Window): iset<State> {
    iset s | ReachableIn(p, w, s)
  }

  lemma {:induction false} ReachedIsClosed(p: Params, w: Window)
    ensures Closed(p, w, Reached(p, w))
  {
    InitReachable(p, w);
    forall s, e | s in Reached(p, w) && Enabled(p, s, e) && Within(After(p, s, e), w)
      ensures After(p, s, e) in Reached(p, w)
    {
      GoesOn(p, w, s, e);
    }
  }

  /** A state whose logins in flight are among few ids, and with few left tokens. */
  lemma {:induction false} WithinBy(s: State, ids: set<nat>, w: Window)
    requires forall id :: id in s.logins && InFlight(s.logins[id]) ==> id in ids
    requires |ids| <= w.flights && |s.left| <= w.left
    ensures Within(s, w)
  {
    forall account ensures |FlightsOf(s, account)| <= w.flights && |LeftOf(s, account)| <= w.left {
      Smaller(FlightsOf(s, account), ids);
      Smaller(LeftOf(s, account), s.left);
    }
  }

  lemma {:induction false} InitReachable(p: Params, w: Window)
    ensures ReachableIn(p, w, INIT)
  {
    WithinBy(INIT, {}, w);
    assert Admissible(p, INIT, []) && StaysWithin(p, INIT, [], w) && Run(p, INIT, []) == INIT;
  }

  // ------------------------------------------------------------------ crowds of password logins

  /** The numbers below n. */
  function Upto(n: nat): set<nat> {
    if n == 0 then {} else Upto(n - 1) + {n - 1}
  }

  lemma {:induction false} UptoAll(n: nat)
    ensures forall i :: i in Upto(n) <==> 0 <= i < n
    ensures |Upto(n)| == n
  {
    if n > 0 {
      UptoAll(n - 1);
    }
  }

  /** The tokens below n, each stored for account "a". */
  function Stored(n: nat): Store {
    if n == 0 then map[] else Stored(n - 1)[n - 1 := "a"]
  }

  lemma {:induction false} StoredAll(n: nat)
    ensures Stored(n).Keys == Upto(n) && forall t :: t in Stored(n) ==> Stored(n)[t] == "a"
  {
    if n > 0 {
      StoredAll(n - 1);
    }
  }

  lemma {:induction false} StoredTokens(n: nat)
    ensures TokensOf(Stored(n), "a") == Upto(n) && CountOf(Stored(n), "a") == n
  {
    StoredAll(n);
    TokensAreKeys(Stored(n));
    UptoAll(n);
  }

  lemma {:induction false} TokensAreKeys(ss: Store)
    requires forall t :: t in ss ==> ss[t] == "a"
    ensures TokensOf(ss, "a") == ss.Keys
  {
  }

  function Waiting(remove: bool, m: nat): map<nat, Login> {
    if m == 0 then map[] else Waiting(remove, m - 1)[m - 1 := Password("a", remove, true)]
  }

  lemma {:induction false} WaitingAll(remove: bool, m: nat)
    ensures forall i :: i in Waiting(remove, m) <==> 0 <= i < m
    ensures forall i :: i in Waiting(remove, m) ==> Waiting(remove, m)[i] == Password("a", remove, true)
  {
    if m > 0 {
      WaitingAll(remove, m - 1);
    }
  }

  lemma {:induction false} DropNew(m: map<nat, Login>, k: nat, l: Login)
    requires k !in m
    ensures m[k := l] - {k} == m
  {
  }

  lemma {:induction false} Twice(m: map<nat, Login>, k: nat, a: Login, b: Login)
    ensures m[k := a][k := b] == m[k := b]
  {
  }

  /** Password logins 0 .. m - 1 of account "a" wait to save; n accepted sessions are stored. */
  function Crowd(remove: bool, m: nat, n: nat): State {
    State(Stored(n), Waiting(remove, m), Upto(n), Upto(n), {})
  }

  /** One more password login has begun. */
  function Arrived(remove: bool, m: nat, n: nat): State {
    Crowd(remove, m, n).(logins := Waiting(remove, m)[m := Password("a", remove, false)])
  }

  lemma {:induction false} ArrivedPending(remove: bool, m: nat, n: nat)
    ensures |PendingOf(Arrived(remove, m, n), "a")| == m
  {
    WaitingAll(remove, m);
    UptoAll(m);
    assert PendingOf(Arrived(remove, m, n), "a") == Upto(m);
  }

  lemma {:induction false} CrowdAccepted(remove: bool, m: nat, n: nat)
    ensures |AcceptedOf(Crowd(remove, m, n), "a")| == n
  {
    StoredTokens(n);
    UptoAll(n);
    assert AcceptedOf(Crowd(remove, m, n), "a") == Upto(n);
  }

  /** Nobody is in flight in a crowd. */
  lemma {:induction false} CrowdWithin(remove: bool, m: nat, n: nat, l: Login, w: Window)
    requires !InFlight(l)
    ensures Within(Crowd(remove, m, n), w)
    ensures Within(Crowd(remove, m, n).(logins := Waiting(remove, m)[m := l]), w)
  {
    WaitingAll(remove, m);
    WithinBy(Crowd(remove, m, n), {}, w);
    WithinBy(Crowd(remove, m, n).(logins := Waiting(remove, m)[m := l]), {}, w);
  }

  function Look(remove: bool, m: nat): Event {
    if remove then RemoveAll(m) else Check(m)
  }

  lemma {:induction false} LookStep(p: Params, remove: bool, m: nat, n: nat)
    requires m < p.pending && if remove then n == 0 else n < p.limit
    ensures Enabled(p, Arrived(remove, m, n), Look(remove, m))
    ensures After(p, Arrived(remove, m, n), Look(remove, m)) == Crowd(remove, m + 1, n)
  {
    ArrivedPending(remove, m, n);
    StoredTokens(n);
    Twice(Waiting(remove, m), m, Password("a", remove, false), Password("a", remove, true));
    if remove {
      assert DeleteAll(Stored(0), "a") == Stored(0);
    }
  }

  lemma {:induction false} Arrives(p: Params, w: Window, r: iset<State>, remove: bool, m: nat, n: nat)
    requires Closed(p, w, r) && Crowd(remove, m, n) in r
    ensures Arrived(remove, m, n) in r
  {
    var l := Password("a", remove, false);
    WaitingAll(remove, m);
    CrowdWithin(remove, m, n, l, w);
    Goes(p, w, r, Crowd(remove, m, n), Begin(m, l), Arrived(remove, m, n));
  }

  /** One more login waits: by removing all sessions of none, or by counting fewer than the limit. */
  lemma {:induction false} OneMoreWaits(p: Params, w: Window, r: iset<State>, remove: bool, m: nat, n: nat)
    requires Closed(p, w, r)
    requires m < p.pending && Crowd(remove, m, n) in r
    requires if remove then n == 0 else n < p.limit
    ensures Crowd(remove, m + 1, n) in r
  {
    Arrives(p, w, r, remove, m, n);
    CrowdWithin(remove, m + 1, n, Password("a", remove, false), w);
    LookStep(p, remove, m, n);
    Goes(p, w, r, Arrived(remove, m, n), Look(remove, m), Crowd(remove, m + 1, n));
  }

  lemma {:induction false} Waiters(p: Params, w: Window, r: iset<State>, remove: bool, m: nat, n: nat)
    requires Closed(p, w, r)
    requires m <= p.pending && Crowd(remove, 0, n) in r
    requires if remove then n == 0 else n < p.limit
    ensures Crowd(remove, m, n) in r
    decreases m
  {
    if m > 0 {
      Waiters(p, w, r, remove, m - 1, n);
      OneMoreWaits(p, w, r, remove, m - 1, n);
    }
  }

  lemma {:induction false} SaveStep(p: Params, remove: bool, m: nat, n: nat)
    requires m > 0
    ensures Enabled(p, Crowd(remove, m, n), SavePassword(m - 1, n))
    ensures After(p, Crowd(remove, m, n), SavePassword(m - 1, n)) == Crowd(remove, m - 1, n + 1)
  {
    WaitingAll(remove, m - 1);
    UptoAll(n);
    DropNew(Waiting(remove, m - 1), m - 1, Password("a", remove, true));
  }

  lemma {:induction false} PasswordSaves(p: Params, w: Window, r: iset<State>, remove: bool, m: nat, n: nat)
    requires Closed(p, w, r)
    requires m > 0 && Crowd(remove, m, n) in r
    ensures Crowd(remove, m - 1, n + 1) in r
  {
    SaveStep(p, remove, m, n);
    CrowdWithin(remove, m - 1, n + 1, Password("a", remove, true), w);
    Goes(p, w, r, Crowd(remove, m, n), SavePassword(m - 1, n), Crowd(remove, m - 1, n + 1));
  }

  /** The waiting logins save one after the other. */
  lemma {:induction false} WaitersSave(p: Params, w: Window, r: iset<State>, remove: bool, m: nat, n: nat, total: nat)
    requires Closed(p, w, r)
    requires total == n + m && Crowd(remove, m, n) in r
    ensures Crowd(remove, 0, total) in r
    decreases m
  {
    if m > 0 {
      PasswordSaves(p, w, r, remove, m, n);
      WaitersSave(p, w, r, remove, m - 1, n + 1, total);
    }
  }

  lemma {:induction false} CrowdEmpty(remove: bool, n: nat)
    ensures Crowd(remove, 0, n) == Crowd(true, 0, n)
    ensures Crowd(remove, 0, 0) == INIT
  {
  }

  /** Single password logins fill the store up to the limit. */
  lemma {:induction false} PasswordsFill(p: Params, w: Window, r: iset<State>, n: nat)
    requires Closed(p, w, r)
    requires p.pending > 0 && n <= p.limit
    ensures Crowd(false, 0, n) in r
  {
    if n == 0 {
      CrowdEmpty(false, 0);
    } else {
      PasswordsFill(p, w, r, n - 1);
      OneMoreWaits(p, w, r, false, 0, n - 1);
      WaitersSave(p, w, r, false, 1, n - 1, n);
    }
  }

  /** Without any passkey login, password logins reach PasswordRoom. */
  lemma {:induction false} PasswordsReach(p: Params, w: Window, r: iset<State>)
    requires Closed(p, w, r)
    ensures Crowd(true, 0, PasswordRoom(p)) in r
  {
    CrowdEmpty(true, 0);
    if p.pending > 0 {
      var remove := p.limit <= 1;
      var n := if remove then 0 else p.limit - 1;
      if !remove {
        PasswordsFill(p, w, r, n);
      }
      Waiters(p, w, r, remove, p.pending, n);
      WaitersSave(p, w, r, remove, p.pending, n, n + p.pending);
      CrowdEmpty(remove, n + p.pending);
    }
  }

  // ------------------------------------------------------------------ with passkey logins

  /** One more passkey login has saved and is about to decide. */
  function Deciding(m: nat, n: nat, others: bool): State {
    State(Stored(n + 1), Waiting(true, m)[m := Passkey("a", others, Saved(n))],
          Upto(n), Upto(n + 1), {})
  }

  lemma {:induction false} PasskeySaveStep(p: Params, m: nat, n: nat, others: bool)
    ensures var s := Crowd(true, m, n).(logins := Waiting(true, m)[m := Passkey("a", others, Unsaved)]);
            Enabled(p, s, SavePasskey(m, n)) && After(p, s, SavePasskey(m, n)) == Deciding(m, n, others)
  {
    UptoAll(n);
    Twice(Waiting(true, m), m, Passkey("a", others, Unsaved), Passkey("a", others, Saved(n)));
  }

  lemma {:induction false} PasskeySaves(p: Params, w: Window, r: iset<State>, m: nat, n: nat, others: bool)
    requires Closed(p, w, r)
    requires w.flights > 0 && Crowd(true, m, n) in r
    ensures Deciding(m, n, others) in r
  {
    var l := Passkey("a", others, Unsaved);
    var s := Crowd(true, m, n).(logins := Waiting(true, m)[m := l]);
    WaitingAll(true, m);
    CrowdWithin(true, m, n, l, w);
    Goes(p, w, r, Crowd(true, m, n), Begin(m, l), s);
    PasskeySaveStep(p, m, n, others);
    WithinBy(Deciding(m, n, others), {m}, w);
    Goes(p, w, r, s, SavePasskey(m, n), Deciding(m, n, others));
  }

  /** It decides below the limit, or removes the other sessions, of which there are none. */
  lemma {:induction false} DecideStep(p: Params, m: nat, n: nat)
    requires n + 1 < p.limit
    ensures Enabled(p, Deciding(m, n, false), Decide(m))
    ensures After(p, Deciding(m, n, false), Decide(m)) == Crowd(true, m, n + 1)
  {
    WaitingAll(true, m);
    DropNew(Waiting(true, m), m, Passkey("a", false, Saved(n)));
    StoredTokens(n + 1);
  }

  lemma {:induction false} RemoveStep(p: Params, m: nat)
    ensures Enabled(p, Deciding(m, 0, true), RemoveOthers(m))
    ensures After(p, Deciding(m, 0, true), RemoveOthers(m)) == Crowd(true, m, 1)
  {
    WaitingAll(true, m);
    DropNew(Waiting(true, m), m, Passkey("a", true, Saved(0)));
    OnlyOne();
  }

  lemma {:induction false} OnlyOne()
    ensures DeleteExcept(Stored(1), "a", 0) == Stored(1)
  {
    StoredTokens(1);
  }

  lemma {:induction false} PasskeyAccepted(p: Params, w: Window, r: iset<State>, m: nat, n: nat)
    requires Closed(p, w, r)
    requires n < Base(p.limit) && w.flights > 0 && Crowd(true, m, n) in r
    ensures Crowd(true, m, n + 1) in r
  {
    CrowdWithin(true, m, n + 1, Password("a", true, true), w);
    if n + 1 < p.limit {
      PasskeySaves(p, w, r, m, n, false);
      DecideStep(p, m, n);
      Goes(p, w, r, Deciding(m, n, false), Decide(m), Crowd(true, m, n + 1));
    } else {
      PasskeySaves(p, w, r, m, 0, true);
      RemoveStep(p, m);
      Goes(p, w, r, Deciding(m, 0, true), RemoveOthers(m), Crowd(true, m, 1));
    }
  }

  lemma {:induction false} PasskeysFill(p: Params, w: Window, r: iset<State>, n: nat)
    requires Closed(p, w, r)
    requires n <= Base(p.limit) && w.flights > 0
    ensures Crowd(true, p.pending, n) in r
  {
    if n == 0 {
      CrowdEmpty(true, 0);
      Waiters(p, w, r, true, p.pending, 0);
    } else {
      PasskeysFill(p, w, r, n - 1);
      PasskeyAccepted(p, w, r, p.pending, n - 1);
    }
  }

  /** Passkey logins fill the store while password logins wait, which then save. */
  lemma {:induction false} AcceptedReach(p: Params, w: Window, r: iset<State>)
    requires Closed(p, w, r)
    requires w.flights > 0
    ensures Crowd(true, 0, Base(p.limit) + p.pending) in r
  {
    PasskeysFill(p, w, r, Base(p.limit));
    WaitersSave(p, w, r, true, p.pending, Base(p.limit), Base(p.limit) + p.pending);
  }

  // ------------------------------------------------------------------ the bound on accepted sessions

  /** max(1, limit - 1) + pending is the exact maximum of accepted stored sessions over all runs. */
  lemma {:induction false} BoundIsExact(p: Params, b: nat)
    ensures (forall s, account :: Reachable(p, s) ==> |AcceptedOf(s, account)| <= b)
            <==> Base(p.limit) + p.pending <= b
  {
    var n, w := Base(p.limit) + p.pending, Window(1, 0);
    ReachedIsClosed(p, w);
    AcceptedReach(p, w, Reached(p, w));
    CrowdAccepted(true, 0, n);
    InIsReachable(p, w, Crowd(true, 0, n));
    assert |AcceptedOf(Crowd(true, 0, n), "a")| == n;
    forall s, account | Reachable(p, s) ensures |AcceptedOf(s, account)| <= n {
      MixedLoginsBounded(p, s, account);
    }
  }

  /** Passkey logins alone reach limit - 1 and no more; one password login at a time reaches the limit. */
  lemma {:induction false} LimitsInPractice(limit: int, b: nat)
    requires limit >= 2
    ensures (forall s, account :: Reachable(Params(limit, 0), s) ==> |AcceptedOf(s, account)| <= b) <==> limit - 1 <= b
    ensures (forall s, account :: Reachable(Params(limit, 1), s) ==> |AcceptedOf(s, account)| <= b) <==> limit <= b
  {
    BoundIsExact(Params(limit, 0), b);
    BoundIsExact(Params(limit, 1), b);
  }

  // ------------------------------------------------------------------ the bound on stored sessions

  /** Passkey logins 0 .. j - 1 have saved the tokens n .. n + j - 1. */
  function Flying(n: nat, j: nat): map<nat, Login> {
    if j == 0 then map[] else Flying(n, j - 1)[j - 1 := Passkey("a", false, Saved(n + j - 1))]
  }

  lemma {:induction false} FlyingAll(n: nat, j: nat)
    ensures forall i :: i in Flying(n, j) <==> 0 <= i < j
  {
    if j > 0 {
      FlyingAll(n, j - 1);
    }
  }

  /** The tokens n .. n + l - 1. */
  function Extra(n: nat, l: nat): set<nat> {
    if l == 0 then {} else Extra(n, l - 1) + {n + l - 1}
  }

  lemma {:induction false} ExtraAll(n: nat, l: nat)
    ensures forall i :: i in Extra(n, l) <==> n <= i < n + l
    ensures |Extra(n, l)| == l
  {
    if l > 0 {
      ExtraAll(n, l - 1);
    }
  }

  /** n accepted sessions, l left ones and j in flight. */
  function Packed(n: nat, l: nat, j: nat): State {
    State(Stored(n + l + j), Flying(n + l, j), Upto(n), Upto(n + l + j), Extra(n, l))
  }

  lemma {:induction false} PackedWithin(n: nat, l: nat, j: nat, w: Window)
    requires l <= w.left && j <= w.flights
    ensures Within(Packed(n, l, j), w)
  {
    FlyingAll(n + l, j);
    UptoAll(j);
    ExtraAll(n, l);
    WithinBy(Packed(n, l, j), Upto(j), w);
  }

  /** One more passkey login has begun. */
  function Starting(n: nat, l: nat, j: nat): State {
    Packed(n, l, j).(logins := Flying(n + l, j)[j := Passkey("a", false, Unsaved)])
  }

  lemma {:induction false} StartingWithin(n: nat, l: nat, j: nat, w: Window)
    requires l <= w.left && j <= w.flights
    ensures Within(Starting(n, l, j), w)
  {
    FlyingAll(n + l, j);
    UptoAll(j);
    ExtraAll(n, l);
    WithinBy(Starting(n, l, j), Upto(j), w);
  }

  lemma {:induction false} FlyStep(p: Params, n: nat, l: nat, j: nat)
    ensures Enabled(p, Packed(n, l, j), Begin(j, Passkey("a", false, Unsaved)))
    ensures Enabled(p, Starting(n, l, j), SavePasskey(j, n + l + j))
    ensures After(p, Starting(n, l, j), SavePasskey(j, n + l + j)) == Packed(n, l, j + 1)
  {
    FlyingAll(n + l, j);
    UptoAll(n + l + j);
    Twice(Flying(n + l, j), j, Passkey("a", false, Unsaved), Passkey("a", false, Saved(n + l + j)));
  }

  lemma {:induction false} OneMoreFlies(p: Params, w: Window, r: iset<State>, n: nat, l: nat, j: nat)
    requires Closed(p, w, r)
    requires l <= w.left && j < w.flights && Packed(n, l, j) in r
    ensures Packed(n, l, j + 1) in r
  {
    StartingWithin(n, l, j, w);
    FlyStep(p, n, l, j);
    Goes(p, w, r, Packed(n, l, j), Begin(j, Passkey("a", false, Unsaved)), Starting(n, l, j));
    PackedWithin(n, l, j + 1, w);
    Goes(p, w, r, Starting(n, l, j), SavePasskey(j, n + l + j), Packed(n, l, j + 1));
  }

  lemma {:induction false} LeaveStep(p: Params, n: nat, l: nat)
    ensures Enabled(p, Packed(n, l, 1), CallFails(0))
    ensures After(p, Packed(n, l, 1), CallFails(0)) == Packed(n, l + 1, 0)
  {
    var one := Passkey("a", false, Saved(n + l));
    assert Flying(n + l, 1) == Flying(n + l, 0)[0 := one];
    DropNew(Flying(n + l, 0), 0, one);
  }

  lemma {:induction false} OneMoreLeft(p: Params, w: Window, r: iset<State>, n: nat, l: nat)
    requires Closed(p, w, r)
    requires l < w.left && 0 < w.flights && Packed(n, l, 0) in r
    ensures Packed(n, l + 1, 0) in r
  {
    OneMoreFlies(p, w, r, n, l, 0);
    LeaveStep(p, n, l);
    PackedWithin(n, l + 1, 0, w);
    Goes(p, w, r, Packed(n, l, 1), CallFails(0), Packed(n, l + 1, 0));
  }

  lemma {:induction false} PackLeft(p: Params, w: Window, r: iset<State>, n: nat, l: nat)
    requires Closed(p, w, r)
    requires l <= w.left && 0 < w.flights && Packed(n, 0, 0) in r
    ensures Packed(n, l, 0) in r
    decreases l
  {
    if l > 0 {
      PackLeft(p, w, r, n, l - 1);
      OneMoreLeft(p, w, r, n, l - 1);
    }
  }

  lemma {:induction false} PackFlights(p: Params, w: Window, r: iset<State>, n: nat, l: nat, j: nat)
    requires Closed(p, w, r)
    requires l <= w.left && j <= w.flights && Packed(n, l, 0) in r
    ensures Packed(n, l, j) in r
    decreases j
  {
    if j > 0 {
      PackFlights(p, w, r, n, l, j - 1);
      OneMoreFlies(p, w, r, n, l, j - 1);
    }
  }

  lemma {:induction false} PackedReach(p: Params, w: Window, r: iset<State>, l: nat, j: nat)
    requires Closed(p, w, r)
    requires 0 < w.flights && l <= w.left && j <= w.flights
    ensures Packed(Base(p.limit) + p.pending, l, j) in r
  {
    var n := Base(p.limit) + p.pending;
    AcceptedReach(p, w, r);
    assert Crowd(true, 0, n) == Packed(n, 0, 0);
    PackLeft(p, w, r, n, l);
    PackFlights(p, w, r, n, l, j);
  }

  lemma {:induction false} PackedCounts(n: nat, l: nat, j: nat)
    ensures CountOf(Packed(n, l, j).sessions, "a") == n + l + j
  {
    StoredTokens(n + l + j);
  }

  lemma {:induction false} PackedNumbers(n: nat, l: nat, j: nat, total: nat)
    requires total == n + l + j
    ensures Counts(Packed(n, l, j), j, l, total)
  {
    PackedCounts(n, l, j);
    PackedWithin(n, l, j, Window(j, l));
  }

  /** A state with total sessions of account "a", few of them in flight and few left. */
  ghost predicate Counts(s: State, q: nat, f: nat, total: nat) {
    |FlightsOf(s, "a")| <= q && |LeftOf(s, "a")| <= f && CountOf(s.sessions, "a") == total
  }

  lemma {:induction false} PackedReachable(p: Params, n: nat, l: nat, j: nat)
    requires n == Base(p.limit) + p.pending
    ensures Reachable(p, Packed(n, l, j))
  {
    var w := Window(j + 1, l);
    ReachedIsClosed(p, w);
    PackedReach(p, w, Reached(p, w), l, j);
    InIsReachable(p, w, Packed(n, l, j));
  }

  lemma {:induction false} StoredBoundReached(p: Params, q: nat, f: nat, total: nat) returns (s: State)
    requires total == Base(p.limit) + p.pending + q + f
    ensures Reachable(p, s) && Counts(s, q, f, total)
  {
    var n: nat := Base(p.limit) + p.pending;
    PackedNumbers(n, f, q, total);
    PackedReachable(p, n, f, q);
    s := Packed(n, f, q);
  }

  /**
   * In the reachable states in which at most q passkey logins of an account are in flight and at
   * most f left sessions are stored for it, its stored sessions are bounded by
   * max(1, limit - 1) + pending + q + f, and by nothing less.
   */
  lemma {:induction false} StoredBoundIsExact(p: Params, q: nat, f: nat, b: nat)
    ensures (forall s, account :: Reachable(p, s) && |FlightsOf(s, account)| <= q && |LeftOf(s, account)| <= f ==>
               CountOf(s.sessions, account) <= b)
            <==> Base(p.limit) + p.pending + q + f <= b
  {
    var n := Base(p.limit) + p.pending;
    var reached := StoredBoundReached(p, q, f, n + q + f);
    forall s, account | Reachable(p, s) && |FlightsOf(s, account)| <= q && |LeftOf(s, account)| <= f
      ensures CountOf(s.sessions, account) <= n + q + f
    {
      StoredBounded(p, s, account);
    }
  }

  /** Without such limits no number bounds the stored sessions. */
  lemma {:induction false} StoredUnbounded(p: Params, b: nat)
    ensures exists s, account :: Reachable(p, s) && CountOf(s.sessions, account) > b
  {
    StoredBoundIsExact(p, 0, b, b);
    assert !(Base(p.limit) + p.pending + 0 + b <= b);
  }

  // ------------------------------------------------------------------ over whole runs

  /** No passkey login has ever saved. */
  ghost predicate NoFlights(s: State) {
    s.left == {} && forall id :: id in s.logins ==> !InFlight(s.logins[id])
  }

  lemma {:induction false} PasswordsOnly(p: Params, s: State, es: seq<Event>, w: Window)
    requires w.flights == 0 && Admissible(p, s, es) && StaysWithin(p, s, es, w)
    requires Inv(p, s, PasswordRoom(p)) && AllSavedOwn(s) && s.left == {}
    ensures Inv(p, Run(p, s, es), PasswordRoom(p)) && NoFlights(Run(p, s, es))
    decreases |es|
  {
    forall id | id in s.logins ensures !InFlight(s.logins[id]) {
      assert id !in FlightsOf(s, s.logins[id].account);
    }
    if es != [] {
      InvStep(p, s, es[0], PasswordRoom(p));
      OwnStep(p, s, es[0]);
      PasswordsOnly(p, After(p, s, es[0]), es[1..], w);
    }
  }

  /** The most stored sessions over the runs that stay within a window. */
  function Capacity(p: Params, w: Window): nat {
    if w.flights == 0 then PasswordRoom(p) else Base(p.limit) + p.pending + w.flights + w.left
  }

  lemma {:induction false} CapacityHolds(p: Params, w: Window, s: State, account: string)
    requires ReachableIn(p, w, s)
    ensures CountOf(s.sessions, account) <= Capacity(p, w)
  {
    var es :| Admissible(p, INIT, es) && StaysWithin(p, INIT, es, w) && Run(p, INIT, es) == s;
    EndsWithin(p, INIT, es, w);
    StoredBounded(p, s, account);
    if w.flights == 0 {
      InitInv(p, PasswordRoom(p));
      PasswordsOnly(p, INIT, es, w);
      StoredPartition(p, s, account);
      assert FlightsOf(s, account) == {};
      FlightsCover(s, account);
      assert Bounded(p, s, account, PasswordRoom(p));
    }
  }

  lemma {:induction false} CapacityReached(p: Params, w: Window) returns (s: State)
    ensures ReachableIn(p, w, s) && CountOf(s.sessions, "a") == Capacity(p, w)
  {
    ReachedIsClosed(p, w);
    if w.flights == 0 {
      s := Crowd(true, 0, PasswordRoom(p));
      PasswordsReach(p, w, Reached(p, w));
      StoredTokens(PasswordRoom(p));
    } else {
      var n := Base(p.limit) + p.pending;
      s := Packed(n, w.left, w.flights);
      PackedReach(p, w, Reached(p, w), w.left, w.flights);
      PackedCounts(n, w.left, w.flights);
    }
  }

  /**
   * Over the runs that keep every account within the window throughout, the stored sessions are
   * bounded by Capacity and by nothing less. A window without flights shuts passkey logins out.
   */
  lemma {:induction false} RunBoundIsExact(p: Params, w: Window, b: nat)
    ensures (forall s, account :: ReachableIn(p, w, s) ==> CountOf(s.sessions, account) <= b) <==> Capacity(p, w) <= b
  {
    forall s, account | ReachableIn(p, w, s) ensures CountOf(s.sessions, account) <= Capacity(p, w) {
      CapacityHolds(p, w, s, account);
    }
    var s := CapacityReached(p, w);
  }
}
