/**
 * The exit of the proxy: tracked collectors that panic, restart and return, a wait bounded by a
 * timeout, and a shutdown body that two callers may enter and that may panic at any statement.
 */
module Shutdown {
  import opened Wrappers

  /** What the shutdown body does to the outside; Waited carries the answer of waitFor. */
  datatype Effect = StopMetrics | StopProxy | CloseCache | CloseQuit | Waited(finished: bool) | CloseSentry | Disconnect

  /** Which of the two optional servers a shutdown call was given. */
  datatype Call = Call(server: bool, metrics: bool)

  /** The statement of the body about to run. */
  datatype Pc = AtMetrics | AtProxy | AtCache | AtQuit | AtWait | AtSentry | AtDisconnect | Ended

  function Rank(at: Pc): nat {
    match at
    case AtMetrics => 0
    case AtProxy => 1
    case AtCache => 2
    case AtQuit => 3
    case AtWait => 4
    case AtSentry => 5
    case AtDisconnect => 6
    case Ended => 7
  }

  function StatementOf(e: Effect): Pc {
    match e
    case StopMetrics => AtMetrics
    case StopProxy => AtProxy
    case CloseCache => AtCache
    case CloseQuit => AtQuit
    case Waited(_) => AtWait
    case CloseSentry => AtSentry
    case Disconnect => AtDisconnect
  }

  /** Does a call have the server the effect is about? */
  predicate Applies(c: Call, e: Effect) {
    && (e.StopMetrics? ==> c.metrics)
    && (e.StopProxy? || e.CloseCache? ==> c.server)
  }

  /** The effect belongs to a statement before at, and a wait has given the answer finished. */
  predicate Due(c: Call, at: Pc, finished: bool, e: Effect) {
    Rank(StatementOf(e)) < Rank(at) && Applies(c, e) && (e.Waited? ==> e.finished == finished)
  }

  /** The log holds the effects due at a statement, each once and in program order, and no other. */
  ghost predicate UpTo(c: Call, at: Pc, finished: bool, log: seq<Effect>) {
    && (forall i, j :: 0 <= i < j < |log| ==> Rank(StatementOf(log[i])) < Rank(StatementOf(log[j])))
    && (forall e :: e in log <==> Due(c, at, finished, e))
  }

  /** The next effect in program order. */
  lemma {:induction false} OneMore(c: Call, at: Pc, next: Pc, finished: bool, log: seq<Effect>, e: Effect)
    requires UpTo(c, at, finished, log) && StatementOf(e) == at && Rank(next) == Rank(at) + 1
    requires Applies(c, e) && (e.Waited? ==> e.finished == finished)
    ensures UpTo(c, next, finished, log + [e])
  {
    var log' := log + [e];
    forall i, j | 0 <= i < j < |log'| ensures Rank(StatementOf(log'[i])) < Rank(StatementOf(log'[j])) {
      assert log'[i] in log;
    }
    forall x ensures x in log' <==> Due(c, next, finished, x) {
      assert x in log' <==> x in log || x == e;
    }
  }

  /** A statement whose server the call does not have. */
  lemma {:induction false} Skipped(c: Call, at: Pc, next: Pc, finished: bool, log: seq<Effect>)
    requires UpTo(c, at, finished, log) && Rank(next) == Rank(at) + 1
    requires if at.AtMetrics? then !c.metrics else (at.AtProxy? || at.AtCache?) && !c.server
    ensures UpTo(c, next, finished, log)
  {
  }

  /** Before the wait its answer does not matter. */
  lemma {:induction false} AnswerOpen(c: Call, at: Pc, was: bool, finished: bool, log: seq<Effect>)
    requires UpTo(c, at, was, log) && Rank(at) <= Rank(AtWait)
    ensures UpTo(c, at, finished, log)
  {
    assert forall e :: Due(c, at, was, e) <==> Due(c, at, finished, e);
  }

  /** A tracked run: Crashed is between a panic and its restart, Returned before wg.Done. */
  datatype Phase = Running | Crashed | Returned | Done

  /** The runs that the wait group still counts. */
  function Unfinished(phases: seq<Phase>): nat {
    if phases == [] then 0 else (if phases[0] == Done then 0 else 1) + Unfinished(phases[1..])
  }

  predicate AllDone(phases: seq<Phase>) {
    forall i :: 0 <= i < |phases| ==> phases[i] == Done
  }

  // ------------------------------------------------------------------ the process

  class Process {
    /** The counter of the wait group. */
    var count: int
    /** The tracked runs; Done is also the once flag of the run. */
    var phases: seq<Phase>
    var quit: bool
    var once: bool
    var log: seq<Effect>

    ghost predicate Valid()
      reads this
    {
      && count == Unfinished(phases)
      && (quit ==> once) && (!once ==> log == [])
    }

    /** Has the wait something to end it: the timeout, or the end of all runs? */
    ghost predicate Ready(expired: bool)
      reads this`phases
    {
      expired || AllDone(phases)
    }

    constructor ()
      ensures Valid() && phases == [] && !once && log == []
    {
      count, phases, quit, once, log := 0, [], false, false, [];
    }

    method TrackRun() returns (id: nat)
      requires Valid()
      modifies this`count, this`phases
      ensures Valid() && phases == old(phases) + [Running] && id == |old(phases)|
    {
      id := |phases|;
      UnfinishedSplit(phases, [Running]);
      count, phases := count + 1, phases + [Running];
    }

    /** The end of a tracked run: the first one counts down, any other does nothing. */
    method MarkDone(id: nat)
      requires Valid() && id < |phases|
      modifies this`count, this`phases
      ensures Valid() && phases == old(phases)[id := Done]
      ensures count == if old(phases)[id] == Done then old(count) else old(count) - 1
    {
      UnfinishedUpdate(phases, id, Done);
      if phases[id] != Done {
        count := count - 1;
        phases := phases[id := Done];
      } else {
        assert phases == phases[id := Done];
      }
    }

    /**
     * Runs a tracked function whose successive runs panic or not, as panics says, and restarts it
     * after every panic. Panics alone leave it counted; one normal return takes it off the count.
     */
    method SafelyRun(id: nat, panics: seq<bool>)
      requires Valid() && id < |phases|
      modifies this`count, this`phases
      ensures Valid()
      ensures phases == if false in panics then old(phases)[id := Done] else old(phases)
      ensures count == if false in panics && old(phases)[id] != Done then old(count) - 1 else old(count)
      decreases |panics|
    {
      if panics == [] {
        return;
      }
      if panics[0] {
        assert panics == [true] + panics[1..];
        SafelyRun(id, panics[1..]);
      } else {
        MarkDone(id);
      }
    }

    /** waitFor, once either of its two channels is ready; expired picks the timeout. */
    method WaitFor(expired: bool) returns (finished: bool)
      requires Valid() && Ready(expired)
      ensures finished <==> !expired && AllDone(phases)
    {
      NoneUnfinished(phases);
      finished := count == 0 && !expired;
    }

    /** Closes quit, once, and waits; fault names the statement that panics, if any. */
    method StopCollectors(expired: bool, fault: Option<Pc>) returns (panicked: bool)
      requires Valid() && once && !quit && Ready(expired)
      modifies this`quit, this`log
      ensures Valid() && (panicked <==> fault in {Some(AtQuit), Some(AtWait)})
      ensures quit <==> fault != Some(AtQuit)
      ensures log == old(log) + (if fault == Some(AtQuit) then []
                                 else if fault == Some(AtWait) then [CloseQuit]
                                 else [CloseQuit, Waited(!expired && AllDone(phases))])
    {
      if fault == Some(AtQuit) {
        return true;
      }
      quit, log := true, log + [CloseQuit];
      if fault == Some(AtWait) {
        return true;
      }
      var finished := WaitFor(expired);
      log := log + [Waited(finished)];
      panicked := false;
    }

    /** Stops the listeners the call was given, unless fault names one of these statements. */
    method StopListeners(c: Call, ghost ok: bool, fault: Option<Pc>) returns (panicked: bool)
      requires Valid() && once && !quit && log == []
      modifies this`log
      ensures Valid() && (panicked <==> fault in {Some(AtMetrics), Some(AtProxy), Some(AtCache)})
      ensures UpTo(c, if panicked then fault.value else AtQuit, ok, log)
    {
      if fault == Some(AtMetrics) {
        return true;
      }
      if c.metrics {
        OneMore(c, AtMetrics, AtProxy, ok, log, StopMetrics);
        log := log + [StopMetrics];
      } else {
        Skipped(c, AtMetrics, AtProxy, ok, log);
      }
      if fault == Some(AtProxy) {
        return true;
      }
      if c.server {
        OneMore(c, AtProxy, AtCache, ok, log, StopProxy);
        log := log + [StopProxy];
        if fault == Some(AtCache) {
          return true;
        }
        OneMore(c, AtCache, AtQuit, ok, log, CloseCache);
        log := log + [CloseCache];
      } else {
        Skipped(c, AtProxy, AtCache, ok, log);
        Skipped(c, AtCache, AtQuit, ok, log);
        if fault == Some(AtCache) {
          assert forall e :: Due(c, AtCache, ok, e) <==> Due(c, AtQuit, ok, e);
          return true;
        }
      }
      panicked := false;
    }

    /** The body, which panics at the statement that fault names. */
    method DoShutdown(c: Call, expired: bool, fault: Option<Pc>) returns (panicked: bool)
      requires Valid() && once && !quit && log == [] && fault != Some(Ended) && Ready(expired)
      modifies this`quit, this`log
      ensures Valid() && (panicked <==> fault.Some?)
      ensures quit <==> fault.None? || Rank(fault.value) > Rank(AtQuit)
      ensures UpTo(c, if fault.Some? then fault.value else Ended, !expired && AllDone(phases), log)
      ensures !panicked ==> log == WholeLog(c, !expired)
    {
      ghost var ok := !expired && AllDone(phases);
      panicked := StopListeners(c, ok, fault);
      if panicked {
        return;
      }
      Waits(c, ok, log);
      panicked := StopCollectors(expired, fault);
      if panicked {
        return;
      }
      if fault == Some(AtSentry) {
        return true;
      }
      OneMore(c, AtSentry, AtDisconnect, ok, log, CloseSentry);
      log := log + [CloseSentry];
      if fault == Some(AtDisconnect) {
        return true;
      }
      OneMore(c, AtDisconnect, Ended, ok, log, Disconnect);
      log := log + [Disconnect];
      NoOther(fault);
      WholeLogOnly(c, ok, log);
    }

    /** Runs the body in the first call only, even if that call panics. */
    method Shutdown(c: Call, expired: bool, fault: Option<Pc>) returns (panicked: bool)
      requires Valid() && fault != Some(Ended) && (!once ==> !quit && Ready(expired))
      modifies this`quit, this`once, this`log
      ensures Valid() && once
      ensures old(once) ==> !panicked && log == old(log) && quit == old(quit)
      ensures !old(once) ==>
                && (panicked <==> fault.Some?)
                && (quit <==> fault.None? || Rank(fault.value) > Rank(AtQuit))
                && UpTo(c, if fault.Some? then fault.value else Ended, !expired && AllDone(phases), log)
    {
      panicked := false;
      if !once {
        once := true;
        panicked := DoShutdown(c, expired, fault);
      }
    }

    /**
     * A signal exit: the call with the servers, and then, even if that panicked, the deferred one
     * without them. The second call does nothing, so a panic in the first leaves undone whatever
     * comes after it.
     */
    method SignalExit(metrics: bool, expired: bool, fault: Option<Pc>) returns (panicked: bool)
      requires Valid() && !once && !quit && fault != Some(Ended) && Ready(expired)
      modifies this`quit, this`once, this`log
      ensures Valid() && (panicked <==> fault.Some?)
      ensures quit <==> fault.None? || Rank(fault.value) > Rank(AtQuit)
      ensures UpTo(Call(true, metrics), if fault.Some? then fault.value else Ended, !expired && AllDone(phases), log)
    {
      panicked := Shutdown(Call(true, metrics), expired, fault);
      var again := Shutdown(Call(false, false), expired, None);
    }
  }

  /** A fault that is at no statement is none. */
  lemma {:induction false} NoOther(fault: Option<Pc>)
    requires fault !in {Some(AtMetrics), Some(AtProxy), Some(AtCache), Some(AtQuit), Some(AtWait), Some(AtSentry)}
    requires fault != Some(AtDisconnect) && fault != Some(Ended)
    ensures fault.None?
  {
    if fault.Some? {
      var at := fault.value;
      assert fault == Some(at);
      match at
      case AtMetrics =>
      case AtProxy =>
      case AtCache =>
      case AtQuit =>
      case AtWait =>
      case AtSentry =>
      case AtDisconnect =>
      case Ended =>
    }
  }

  /** All effects of a body, spelt out. */
  function WholeLog(c: Call, finished: bool): seq<Effect> {
    (if c.metrics then [StopMetrics] else []) + (if c.server then [StopProxy, CloseCache] else [])
    + [CloseQuit, Waited(finished), CloseSentry, Disconnect]
  }

  function Listeners(c: Call): seq<Effect> {
    (if c.metrics then [StopMetrics] else []) + (if c.server then [StopProxy, CloseCache] else [])
  }

  lemma {:induction false} ListenersDue(c: Call, finished: bool)
    ensures UpTo(c, AtQuit, finished, Listeners(c))
  {
    var none: seq<Effect> := [];
    var one := if c.metrics then [StopMetrics] else [];
    if c.metrics {
      OneMore(c, AtMetrics, AtProxy, finished, none, StopMetrics);
    } else {
      Skipped(c, AtMetrics, AtProxy, finished, none);
    }
    if c.server {
      OneMore(c, AtProxy, AtCache, finished, one, StopProxy);
      OneMore(c, AtCache, AtQuit, finished, one + [StopProxy], CloseCache);
      assert one + [StopProxy] + [CloseCache] == Listeners(c);
    } else {
      Skipped(c, AtProxy, AtCache, finished, one);
      Skipped(c, AtCache, AtQuit, finished, one);
      assert one == Listeners(c);
    }
  }

  lemma {:induction false} WholeLogDue(c: Call, finished: bool)
    ensures UpTo(c, Ended, finished, WholeLog(c, finished))
  {
    var two := Listeners(c);
    var three := two + [CloseQuit, Waited(finished)];
    ListenersDue(c, finished);
    Waits(c, finished, two);
    Closes(c, finished, three);
    assert three + [CloseSentry, Disconnect] == WholeLog(c, finished);
  }

  lemma {:induction false} Closes(c: Call, finished: bool, log: seq<Effect>)
    requires UpTo(c, AtSentry, finished, log)
    ensures UpTo(c, Ended, finished, log + [CloseSentry, Disconnect])
  {
    OneMore(c, AtSentry, AtDisconnect, finished, log, CloseSentry);
    OneMore(c, AtDisconnect, Ended, finished, log + [CloseSentry], Disconnect);
    assert log + [CloseSentry, Disconnect] == log + [CloseSentry] + [Disconnect];
  }

  lemma {:induction false} WholeLogOnly(c: Call, finished: bool, log: seq<Effect>)
    requires UpTo(c, Ended, finished, log)
    ensures log == WholeLog(c, finished)
  {
    WholeLogDue(c, finished);
    SameLog(log, WholeLog(c, finished));
  }

  /** Two logs in program order with the same effects are equal. */
  lemma {:induction false} SameLog(a: seq<Effect>, b: seq<Effect>)
    requires forall i, j :: 0 <= i < j < |a| ==> Rank(StatementOf(a[i])) < Rank(StatementOf(a[j]))
    requires forall i, j :: 0 <= i < j < |b| ==> Rank(StatementOf(b[i])) < Rank(StatementOf(b[j]))
    requires forall e :: e in a <==> e in b
    ensures a == b
  {
    assert |b| > 0 ==> b[0] in b;
    if a != [] {
      assert a[0] in b;
      assert b[0] in a;
      forall e ensures e in a[1..] <==> e in b[1..] {
        assert e in a <==> e == a[0] || e in a[1..];
        assert e in b <==> e == b[0] || e in b[1..];
      }
      SameLog(a[1..], b[1..]);
    }
  }

  lemma {:induction false} Waits(c: Call, ok: bool, log: seq<Effect>)
    requires UpTo(c, AtQuit, ok, log)
    ensures log + [] == log
    ensures UpTo(c, AtWait, ok, log + [CloseQuit])
    ensures UpTo(c, AtSentry, ok, log + [CloseQuit, Waited(ok)])
  {
    OneMore(c, AtQuit, AtWait, ok, log, CloseQuit);
    OneMore(c, AtWait, AtSentry, ok, log + [CloseQuit], Waited(ok));
    assert log + [CloseQuit, Waited(ok)] == log + [CloseQuit] + [Waited(ok)];
  }

  lemma {:induction false} UnfinishedSplit(a: seq<Phase>, b: seq<Phase>)
    ensures Unfinished(a + b) == Unfinished(a) + Unfinished(b)
  {
    if a == [] {
      assert a + b == b;
    } else {
      assert (a + b)[1..] == a[1..] + b;
      UnfinishedSplit(a[1..], b);
    }
  }

  lemma {:induction false} UnfinishedUpdate(phases: seq<Phase>, i: nat, p: Phase)
    requires i < |phases|
    ensures Unfinished(phases[i := p]) ==
            Unfinished(phases) + (if p == Done then 0 else 1) - (if phases[i] == Done then 0 else 1)
  {
    assert phases == phases[..i] + ([phases[i]] + phases[i + 1..]);
    assert phases[i := p] == phases[..i] + ([p] + phases[i + 1..]);
    UnfinishedSplit(phases[..i], [phases[i]] + phases[i + 1..]);
    UnfinishedSplit(phases[..i], [p] + phases[i + 1..]);
    UnfinishedSplit([phases[i]], phases[i + 1..]);
    UnfinishedSplit([p], phases[i + 1..]);
  }

  lemma {:induction false} NoneUnfinished(phases: seq<Phase>)
    ensures Unfinished(phases) == 0 <==> AllDone(phases)
  {
    if phases != [] {
      NoneUnfinished(phases[1..]);
      assert forall i :: 0 < i < |phases| ==> phases[i] == phases[1..][i - 1];
    }
  }

  // ------------------------------------------------------------------ all interleavings

  datatype Caller = Signal | Deferred

  /** The body of shutdownOnce: which call runs or ran it, and the statement it is at or panicked at. */
  datatype Body = NotRun | Runs(runner: Caller, call: Call, at: Pc) | Over(runner: Caller, call: Call, at: Pc)

  /**
   * woken is the waiter's closed channel and finished the answer of waitFor. Of the shutdown calls,
   * entered have begun, left have returned and died have panicked.
   */
  datatype State = State(
    count: int, phases: seq<Phase>, body: Body, quit: bool, log: seq<Effect>, woken: bool, finished: bool,
    entered: set<Caller>, left: set<Caller>, died: set<Caller>)

  const INIT := State(0, [], NotRun, false, [], false, false, {}, {}, {})

  datatype Event =
    | Track
    | Panic(i: nat)
    | Restart(i: nat)
    | Return(i: nat)
    | MarkDone(i: nat)
    | Enter(caller: Caller, call: Call)
    | Step
    | WaitOver(finished: bool)
    | BodyPanics
    | Wake
    | Leave(caller: Caller)

  predicate Enabled(s: State, e: Event) {
    match e
    // Runs are tracked by the thread that later shuts down.
    case Track => s.entered == {}
    case Panic(i) => i < |s.phases| && s.phases[i] == Running
    case Restart(i) => i < |s.phases| && s.phases[i] == Crashed
    case Return(i) => i < |s.phases| && s.phases[i] == Running
    case MarkDone(i) => i < |s.phases| && s.phases[i] == Returned
    // Only the call at a signal has the servers.
    case Enter(w, c) => w !in s.entered && (w == Deferred ==> c == Call(false, false)) && (w == Signal ==> c.server)
    case Step => s.body.Runs? && s.body.at != AtWait
    case WaitOver(ok) => s.body.Runs? && s.body.at == AtWait && (ok ==> s.woken)
    case BodyPanics => s.body.Runs?
    // The waiter is started by waitFor and outlives it.
    case Wake => !s.body.NotRun? && Rank(s.body.at) >= Rank(AtWait) && s.count == 0
    // A call that finds the body running waits for it; the one whose body panicked does not return.
    case Leave(w) => w in s.entered && w !in s.left && w !in s.died && s.body.Over?
  }

  /** The statement after at; none of them jumps. */
  function Next(at: Pc): (n: Pc)
    ensures at != Ended ==> Rank(n) == Rank(at) + 1
  {
    match at
    case AtMetrics => AtProxy
    case AtProxy => AtCache
    case AtCache => AtQuit
    case AtQuit => AtWait
    case AtWait => AtSentry
    case AtSentry => AtDisconnect
    case _ => Ended
  }

  function Move(b: Body): Body
    requires b.Runs?
  {
    if b.at == AtDisconnect then Over(b.runner, b.call, Ended) else Runs(b.runner, b.call, Next(b.at))
  }

  /** One statement other than the wait. */
  function Perform(s: State): State
    requires s.body.Runs? && s.body.at != AtWait
  {
    var s' := s.(body := Move(s.body));
    match s.body.at
    case AtMetrics => if s.body.call.metrics then s'.(log := s.log + [StopMetrics]) else s'
    case AtProxy => if s.body.call.server then s'.(log := s.log + [StopProxy]) else s'
    case AtCache => if s.body.call.server then s'.(log := s.log + [CloseCache]) else s'
    case AtQuit => if s.quit then s' else s'.(quit := true, log := s.log + [CloseQuit])
    case AtSentry => s'.(log := s.log + [CloseSentry])
    case AtDisconnect => s'.(log := s.log + [Disconnect])
    case _ => s'
  }

  function After(s: State, e: Event): State
    requires Enabled(s, e)
  {
    match e
    case Track => s.(count := s.count + 1, phases := s.phases + [Running])
    case Panic(i) => s.(phases := s.phases[i := Crashed])
    case Restart(i) => s.(phases := s.phases[i := Running])
    case Return(i) => s.(phases := s.phases[i := Returned])
    case MarkDone(i) => s.(count := s.count - 1, phases := s.phases[i := Done])
    case Enter(w, c) => s.(entered := s.entered + {w}, body := if s.body.NotRun? then Runs(w, c, AtMetrics) else s.body)
    case Step => Perform(s)
    case WaitOver(ok) => s.(body := Move(s.body), log := s.log + [Waited(ok)], finished := ok)
    case BodyPanics => s.(body := Over(s.body.runner, s.body.call, s.body.at), died := s.died + {s.body.runner})
    case Wake => s.(woken := true)
    case Leave(w) => s.(left := s.left + {w})
  }

  predicate Admissible(s: State, es: seq<Event>)
    decreases |es|
  {
    es == [] || (Enabled(s, es[0]) && Admissible(After(s, es[0]), es[1..]))
  }

  function Run(s: State, es: seq<Event>): State
    requires Admissible(s, es)
    decreases |es|
  {
    if es == [] then s else Run(After(s, es[0]), es[1..])
  }

  ghost predicate Reachable(s: State) {
    exists es :: Admissible(INIT, es) && Run(INIT, es) == s
  }

  // ------------------------------------------------------------------ the invariant

  ghost predicate CountOk(s: State) {
    && s.count == Unfinished(s.phases)
    && (s.woken ==> AllDone(s.phases) && s.entered != {}) && (s.finished ==> s.woken)
  }

  ghost predicate BodyOk(s: State) {
    match s.body
    case NotRun => s.log == [] && s.entered == {} && s.left == {} && s.died == {} && !s.quit && !s.finished
    case Runs(w, c, at) =>
      && UpTo(c, at, s.finished, s.log) && s.left == {} && s.died == {} && w in s.entered && at != Ended
      && (s.quit <==> Rank(at) > Rank(AtQuit)) && (Rank(at) <= Rank(AtWait) ==> !s.finished)
    case Over(w, c, at) =>
      && UpTo(c, at, s.finished, s.log) && w in s.entered && s.left !! s.died
      && s.died == (if at == Ended then {} else {w})
      && (s.quit <==> Rank(at) > Rank(AtQuit)) && (Rank(at) <= Rank(AtWait) ==> !s.finished)
  }

  ghost predicate Inv(s: State) {
    CountOk(s) && BodyOk(s)
  }

  lemma {:induction false} RunKeepsCount(s: State, e: Event)
    requires Inv(s) && Enabled(s, e) && (e.Track? || e.Panic? || e.Restart? || e.Return? || e.MarkDone?)
    ensures CountOk(After(s, e))
  {
    NoneUnfinished(s.phases);
    match e
    case Track => UnfinishedSplit(s.phases, [Running]);
    case Panic(i) => UnfinishedUpdate(s.phases, i, Crashed);
    case Restart(i) => UnfinishedUpdate(s.phases, i, Running);
    case Return(i) => UnfinishedUpdate(s.phases, i, Returned);
    case MarkDone(i) => UnfinishedUpdate(s.phases, i, Done);
  }

  lemma {:induction false} CountStep(s: State, e: Event)
    requires Inv(s) && Enabled(s, e)
    ensures CountOk(After(s, e))
  {
    if e.Track? || e.Panic? || e.Restart? || e.Return? || e.MarkDone? {
      RunKeepsCount(s, e);
    } else {
      NoneUnfinished(s.phases);
    }
  }

  /** The effect of the statement at, if the call has what it takes. */
  function EffectAt(at: Pc): Effect
    requires at != AtWait && at != Ended
  {
    match at
    case AtMetrics => StopMetrics
    case AtProxy => StopProxy
    case AtCache => CloseCache
    case AtQuit => CloseQuit
    case AtSentry => CloseSentry
    case AtDisconnect => Disconnect
  }

  lemma {:induction false} StatementStep(s: State)
    requires Inv(s) && Enabled(s, Step)
    ensures UpTo(s.body.call, Next(s.body.at), s.finished, Perform(s).log)
  {
    var c, at := s.body.call, s.body.at;
    if Applies(c, EffectAt(at)) {
      OneMore(c, at, Next(at), s.finished, s.log, EffectAt(at));
    } else {
      Skipped(c, at, Next(at), s.finished, s.log);
    }
  }

  lemma {:induction false} WaitStep(s: State, ok: bool)
    requires Inv(s) && Enabled(s, WaitOver(ok))
    ensures UpTo(s.body.call, AtSentry, ok, s.log + [Waited(ok)])
  {
    AnswerOpen(s.body.call, AtWait, s.finished, ok, s.log);
    OneMore(s.body.call, AtWait, AtSentry, ok, s.log, Waited(ok));
  }

  lemma {:induction false} StatementKeeps(s: State)
    requires Inv(s) && Enabled(s, Step)
    ensures BodyOk(After(s, Step))
  {
    StatementStep(s);
  }

  lemma {:induction false} WaitKeeps(s: State, ok: bool)
    requires Inv(s) && Enabled(s, WaitOver(ok))
    ensures BodyOk(After(s, WaitOver(ok)))
  {
    WaitStep(s, ok);
  }

  /** The events that perform no statement. */
  lemma {:induction false} OtherKeeps(s: State, e: Event)
    requires Inv(s) && Enabled(s, e) && !e.Step? && !e.WaitOver?
    ensures BodyOk(After(s, e))
  {
  }

  lemma {:induction false} BodyStep(s: State, e: Event)
    requires Inv(s) && Enabled(s, e)
    ensures BodyOk(After(s, e))
  {
    if e == Step {
      StatementKeeps(s);
    } else if e.WaitOver? {
      WaitKeeps(s, e.finished);
    } else {
      OtherKeeps(s, e);
    }
  }

  lemma {:induction false} InvStep(s: State, e: Event)
    requires Inv(s) && Enabled(s, e)
    ensures Inv(After(s, e))
  {
    CountStep(s, e);
    BodyStep(s, e);
  }

  lemma {:induction false} InvRun(s: State, es: seq<Event>)
    requires Inv(s) && Admissible(s, es)
    ensures Inv(Run(s, es))
    decreases |es|
  {
    if es != [] {
      InvStep(s, es[0]);
      InvRun(After(s, es[0]), es[1..]);
    }
  }

  lemma {:induction false} ReachableInv(s: State)
    requires Reachable(s)
    ensures Inv(s)
  {
    var es :| Admissible(INIT, es) && Run(INIT, es) == s;
    InvRun(INIT, es);
  }

  // ------------------------------------------------------------------ safety

  /** The wait group counts exactly the runs that have not ended normally, and is never negative. */
  lemma {:induction false} CountIsUnfinished(s: State)
    requires Reachable(s)
    ensures s.count == Unfinished(s.phases) >= 0
    ensures s.count == 0 <==> AllDone(s.phases)
  {
    ReachableInv(s);
    NoneUnfinished(s.phases);
  }

  /** b happens only after a. */
  predicate Precedes(log: seq<Effect>, a: Effect, b: Effect) {
    forall j :: 0 <= j < |log| && log[j] == b ==> exists i :: 0 <= i < j && log[i] == a
  }

  lemma {:induction false} EarlierStatement(c: Call, at: Pc, finished: bool, log: seq<Effect>, a: Effect, b: Effect)
    requires UpTo(c, at, finished, log) && Applies(c, a) && !a.Waited?
    requires Rank(StatementOf(a)) < Rank(StatementOf(b))
    ensures Precedes(log, a, b)
  {
    forall j | 0 <= j < |log| && log[j] == b ensures exists i :: 0 <= i < j && log[i] == a {
      assert b in log && Due(c, at, finished, a) && a in log;
    }
  }

  /**
   * Whatever the interleaving and wherever the body panics: the listeners of the call that runs it
   * are stopped before the collectors are told to quit, the database is left last, and no effect
   * happens twice.
   */
  lemma {:induction false} ShutdownOrder(s: State)
    requires Reachable(s) && !s.body.NotRun?
    ensures s.body.call.metrics ==> Precedes(s.log, StopMetrics, CloseQuit)
    ensures s.body.call.server ==> Precedes(s.log, StopProxy, CloseCache) && Precedes(s.log, CloseCache, CloseQuit)
    ensures forall ok :: Precedes(s.log, CloseQuit, Waited(ok))
    ensures Precedes(s.log, CloseQuit, CloseSentry) && Precedes(s.log, CloseSentry, Disconnect)
    ensures forall i, j :: 0 <= i < j < |s.log| ==> s.log[i] != s.log[j]
  {
    ReachableInv(s);
    var c, at := s.body.call, s.body.at;
    if c.metrics {
      EarlierStatement(c, at, s.finished, s.log, StopMetrics, CloseQuit);
    }
    if c.server {
      EarlierStatement(c, at, s.finished, s.log, StopProxy, CloseCache);
      EarlierStatement(c, at, s.finished, s.log, CloseCache, CloseQuit);
    }
    forall ok ensures Precedes(s.log, CloseQuit, Waited(ok)) {
      EarlierStatement(c, at, s.finished, s.log, CloseQuit, Waited(ok));
    }
    EarlierStatement(c, at, s.finished, s.log, CloseQuit, CloseSentry);
    EarlierStatement(c, at, s.finished, s.log, CloseSentry, Disconnect);
  }

  /**
   * waitFor reports success only when every tracked run has ended, and the database is left only
   * then or after the timeout: never while a collector may still be writing unless it was given up.
   */
  lemma {:induction false} DisconnectIsLate(s: State)
    requires Reachable(s)
    ensures Waited(true) in s.log ==> AllDone(s.phases)
    ensures Disconnect in s.log ==> AllDone(s.phases) || Waited(false) in s.log
  {
    ReachableInv(s);
    if !s.body.NotRun? {
      assert Waited(true) in s.log ==> Due(s.body.call, s.body.at, s.finished, Waited(true));
      assert Disconnect in s.log ==> Due(s.body.call, s.body.at, s.finished, Disconnect);
      assert Due(s.body.call, s.body.at, s.finished, Waited(s.finished)) ==> Waited(s.finished) in s.log;
    }
  }

  /**
   * What a returned call leaves undone. The database connection stays open exactly when the body
   * panicked, which then happened in the other call; and the collectors were not told to quit
   * exactly when it panicked at that statement or before.
   */
  lemma {:induction false} ReturnedCallIff(s: State, w: Caller)
    requires Reachable(s) && w in s.left
    ensures s.body.Over?
    ensures Disconnect !in s.log <==> s.body.runner in s.died
    ensures s.died == {} || (s.died == {s.body.runner} && s.body.runner != w)
    ensures CloseQuit !in s.log <==> s.died != {} && Rank(s.body.at) <= Rank(AtQuit)
    ensures s.quit <==> CloseQuit in s.log
  {
    ReachableInv(s);
    var c, at := s.body.call, s.body.at;
    assert Disconnect in s.log <==> Due(c, at, s.finished, Disconnect);
    assert CloseQuit in s.log <==> Due(c, at, s.finished, CloseQuit);
  }

  lemma {:induction false} RunSnoc(s: State, es: seq<Event>, e: Event)
    requires Admissible(s, es) && Enabled(Run(s, es), e)
    ensures Admissible(s, es + [e]) && Run(s, es + [e]) == After(Run(s, es), e)
    decreases |es|
  {
    if es == [] {
      assert es + [e] == [e];
    } else {
      assert (es + [e])[1..] == es[1..] + [e];
      RunSnoc(After(s, es[0]), es[1..], e);
    }
  }

  lemma {:induction false} Reach(s: State, e: Event) returns (s': State)
    requires Reachable(s) && Enabled(s, e)
    ensures Reachable(s') && s' == After(s, e)
  {
    var es :| Admissible(INIT, es) && Run(INIT, es) == s;
    RunSnoc(INIT, es, e);
    s' := After(s, e);
  }

  function Previous(at: Pc): (before: Pc)
    requires at != AtMetrics
    ensures before != Ended && Next(before) == at && Rank(before) < Rank(at)
  {
    match at
    case AtProxy => AtMetrics
    case AtCache => AtProxy
    case AtQuit => AtCache
    case AtWait => AtQuit
    case AtSentry => AtWait
    case AtDisconnect => AtSentry
    case Ended => AtDisconnect
  }

  /** The signal call can be at any statement, with no collector tracked. */
  lemma {:induction false} SignalAt(c: Call, at: Pc) returns (s: State)
    requires c.server && at != Ended
    ensures Reachable(s) && s.body == Runs(Signal, c, at) && s.entered == {Signal} && s.left == {} && s.died == {}
    decreases Rank(at)
  {
    if at == AtMetrics {
      assert Admissible(INIT, []) && Run(INIT, []) == INIT;
      s := Reach(INIT, Enter(Signal, c));
    } else {
      var before := Previous(at);
      s := SignalAt(c, before);
      s := Reach(s, if before == AtWait then WaitOver(false) else Step);
    }
  }

  /** A panic of the signal call at any statement leaves a deferred call that returns with work undone. */
  lemma {:induction false} DeferredReturnsUndone(c: Call, at: Pc) returns (s: State)
    requires c.server && at != Ended
    ensures Reachable(s) && Deferred in s.left && s.body == Over(Signal, c, at) && Disconnect !in s.log
    ensures s.quit <==> Rank(at) > Rank(AtQuit)
  {
    s := SignalAt(c, at);
    s := Reach(s, BodyPanics);
    s := Reach(s, Enter(Deferred, Call(false, false)));
    s := Reach(s, Leave(Deferred));
    ReturnedCallIff(s, Deferred);
  }

  // ------------------------------------------------------------------ progress

  /** The statements left to run. */
  function Remaining(s: State): nat {
    match s.body
    case NotRun => 7
    case Runs(_, _, at) => 7 - Rank(at)
    case Over(_, _, _) => 0
  }

  function BodyEvents(es: seq<Event>): nat {
    if es == [] then 0
    else (if IsBodyEvent(es[0]) then 1 else 0) + BodyEvents(es[1..])
  }

  predicate IsBodyEvent(e: Event) {
    e.Step? || e.WaitOver? || e.BodyPanics?
  }

  lemma {:induction false} RemainingStep(s: State, e: Event)
    requires Enabled(s, e) && BodyOk(s)
    ensures Remaining(After(s, e)) + (if IsBodyEvent(e) then 1 else 0) <= Remaining(s)
  {
  }

  /** In every run the body takes at most seven steps, and until it is over its next step waits for nobody. */
  lemma {:induction false} BodyEnds(s: State, es: seq<Event>)
    requires Inv(s) && Admissible(s, es)
    ensures BodyEvents(es) + Remaining(Run(s, es)) <= Remaining(s)
    ensures Run(s, es).body.Runs? ==> Enabled(Run(s, es), Step) || Enabled(Run(s, es), WaitOver(false))
    decreases |es|
  {
    if es != [] {
      InvStep(s, es[0]);
      RemainingStep(s, es[0]);
      BodyEnds(After(s, es[0]), es[1..]);
    }
  }

  lemma {:induction false} RunConcat(s: State, a: seq<Event>, b: seq<Event>)
    requires Admissible(s, a) && Admissible(Run(s, a), b)
    ensures Admissible(s, a + b) && Run(s, a + b) == Run(Run(s, a), b)
    decreases |a|
  {
    if a == [] {
      assert a + b == b;
    } else {
      assert (a + b)[1..] == a[1..] + b;
      RunConcat(After(s, a[0]), a[1..], b);
    }
  }

  /** What a tracked run still has to do to end normally. */
  function Finish(p: Phase, i: nat): seq<Event> {
    match p
    case Running => [Return(i), MarkDone(i)]
    case Crashed => [Restart(i), Return(i), MarkDone(i)]
    case Returned => [MarkDone(i)]
    case Done => []
  }

  lemma {:induction false} RunOne(s: State, e: Event)
    requires Enabled(s, e)
    ensures Admissible(s, [e]) && Run(s, [e]) == After(s, e)
  {
    RunSnoc(s, [], e);
  }

  /** All phases and the count apart, nothing changes. */
  predicate SameBody(s: State, s': State) {
    s' == s.(phases := s'.phases, count := s'.count)
  }

  lemma {:induction false} FinishRunning(s: State, i: nat)
    requires i < |s.phases| && s.phases[i] == Running
    ensures Admissible(s, Finish(Running, i)) && SameBody(s, Run(s, Finish(Running, i)))
    ensures Run(s, Finish(Running, i)).phases == s.phases[i := Done]
  {
    var s1 := After(s, Return(i));
    RunOne(s, Return(i));
    RunOne(s1, MarkDone(i));
    RunConcat(s, [Return(i)], [MarkDone(i)]);
    assert [Return(i)] + [MarkDone(i)] == Finish(Running, i);
    assert s1.phases[i := Done] == s.phases[i := Done];
  }

  lemma {:induction false} FinishOne(s: State, i: nat)
    requires i < |s.phases|
    ensures Admissible(s, Finish(s.phases[i], i)) && SameBody(s, Run(s, Finish(s.phases[i], i)))
    ensures Run(s, Finish(s.phases[i], i)).phases == s.phases[i := Done]
  {
    match s.phases[i]
    case Crashed =>
      var s1 := After(s, Restart(i));
      RunOne(s, Restart(i));
      FinishRunning(s1, i);
      RunConcat(s, [Restart(i)], Finish(Running, i));
      assert [Restart(i)] + Finish(Running, i) == Finish(Crashed, i);
      assert s1.phases[i := Done] == s.phases[i := Done];
    case Running => FinishRunning(s, i);
    case Returned => RunOne(s, MarkDone(i));
    case Done => assert s.phases[i := Done] == s.phases;
  }

  /** Collectors never block each other: all of them can end normally. */
  lemma {:induction false} FinishAll(s: State, n: nat) returns (es: seq<Event>)
    requires n <= |s.phases| && forall i :: 0 <= i < n ==> s.phases[i] == Done
    ensures Admissible(s, es) && AllDone(Run(s, es).phases)
    ensures SameBody(s, Run(s, es))
    decreases |s.phases| - n
  {
    if n == |s.phases| {
      es := [];
    } else {
      FinishOne(s, n);
      var one := Finish(s.phases[n], n);
      var rest := FinishAll(Run(s, one), n + 1);
      RunConcat(s, one, rest);
      es := one + rest;
    }
  }

  /** A statement other than the wait leaves the collectors and the answer alone. */
  predicate Aside(s: State, s': State) {
    s'.phases == s.phases && s'.count == s.count && s'.finished == s.finished && s'.woken == s.woken
  }

  lemma {:induction false} OneStep(s: State)
    requires Inv(s) && s.body.Runs? && s.body.at != AtWait && s.body.at != AtDisconnect
    ensures Admissible(s, [Step]) && Inv(Run(s, [Step])) && Aside(s, Run(s, [Step]))
    ensures Run(s, [Step]).body == Runs(s.body.runner, s.body.call, Next(s.body.at))
  {
    InvStep(s, Step);
    RunOne(s, Step);
  }

  /** The steps up to the wait, without a panic. */
  lemma {:induction false} StepToWait(s: State) returns (es: seq<Event>)
    requires Inv(s) && s.body.Runs? && Rank(s.body.at) <= Rank(AtWait)
    ensures Admissible(s, es) && Inv(Run(s, es)) && Aside(s, Run(s, es))
    ensures Run(s, es).body == Runs(s.body.runner, s.body.call, AtWait)
    decreases Rank(AtWait) - Rank(s.body.at)
  {
    if s.body.at == AtWait {
      es := [];
    } else {
      OneStep(s);
      var rest := StepToWait(Run(s, [Step]));
      RunConcat(s, [Step], rest);
      es := [Step] + rest;
    }
  }

  /** Up to the wait, a clean end is possible: all collectors end, the wait succeeds, the database is left. */
  lemma {:induction false} CleanEnd(s: State) returns (es: seq<Event>)
    requires Inv(s) && s.body.Runs? && Rank(s.body.at) <= Rank(AtWait)
    ensures Admissible(s, es) && Run(s, es).body == Over(s.body.runner, s.body.call, Ended)
    ensures Waited(true) in Run(s, es).log && Disconnect in Run(s, es).log
  {
    var a := FinishAll(s, 0);
    InvRun(s, a);
    var s1 := Run(s, a);
    var b := StepToWait(s1);
    RunConcat(s, a, b);
    var s2 := Run(s1, b);
    var c := WaitCleanly(s2);
    RunConcat(s, a + b, c);
    es := a + b + c;
    var end := Run(s, es);
    InvRun(s, es);
    assert Due(end.body.call, Ended, end.finished, Waited(end.finished));
    assert Due(end.body.call, Ended, end.finished, Disconnect);
  }

  lemma {:induction false} WaitCleanly(s: State) returns (es: seq<Event>)
    requires Inv(s) && s.body.Runs? && s.body.at == AtWait && AllDone(s.phases)
    ensures Admissible(s, es) && Run(s, es).body == Over(s.body.runner, s.body.call, Ended) && Run(s, es).finished
  {
    NoneUnfinished(s.phases);
    RunOne(s, Wake);
    var s1 := After(s, Wake);
    InvStep(s, Wake);
    RunOne(s1, WaitOver(true));
    var s2 := After(s1, WaitOver(true));
    InvStep(s1, WaitOver(true));
    RunOne(s2, Step);
    var s3 := After(s2, Step);
    RunOne(s3, Step);
    RunConcat(s2, [Step], [Step]);
    RunConcat(s1, [WaitOver(true)], [Step] + [Step]);
    RunConcat(s, [Wake], [WaitOver(true)] + ([Step] + [Step]));
    es := [Wake] + ([WaitOver(true)] + ([Step] + [Step]));
  }
}
