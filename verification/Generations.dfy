/**
 * The generation protocol of one profile: readers that cache answers under the generation they
 * read first, purges that bump the generation, and a counter that expires.
 *
 * Every event is one atomic store command (or the database query) of one client, so a run is an
 * arbitrary interleaving. The fields epoch, earlier, base, born and renewed and the history fields of readers
 * and answers are bookkeeping: no client reads them.
 */
module Generations {
  import opened Wrappers
  import opened Text

  /**
   * D bounds the time between a reader's generation read and its cache write, R is the life of an
   * answer, G the life of a counter, and S the least time between a counter's expiry and the next
   * bump.
   */
  datatype Params = Params(D: nat, R: nat, G: nat, S: nat) {
    /** go-redis reads a zero expiration as "none", so both lives are positive. */
    predicate Valid() {
      R > 0 && G > 0
    }
  }

  datatype Counter = Counter(value: nat, deadline: Option<nat>)

  /** A reader has read its generation, has missed the cache, or holds queried data. */
  datatype Phase = Reading | Missed | Queried(payload: string, epoch: nat, at: nat)

  datatype Reader = Reader(span: string, gen: nat, life: nat, epoch: nat, readAt: nat, phase: Phase)

  datatype Answer = Answer(payload: string, life: nat, epoch: nat, readAt: nat, queriedAt: nat, deadline: nat)

  /**
   * epoch counts the bumps so far. A counter life starts at time 0, or when the previous counter
   * expires; base is the epoch when the current life began and earlier lists the bases of the lives
   * before it. born is the time of the current counter's first bump and renewed the time the
   * previous counter expired.
   */
  datatype State = State(now: nat, counter: Option<Counter>, expiring: bool,
                         answers: map<(nat, string), Answer>, readers: map<nat, Reader>,
                         epoch: nat, earlier: seq<nat>, base: nat, born: nat, renewed: nat) {
    /** What Generation returns: 0 when no counter is stored. */
    function Gen(): nat {
      if counter.Some? then counter.value.value else 0
    }

    /** The index of the current counter life. */
    function Life(): nat {
      |earlier|
    }

    /** The epoch when life i began. */
    function Base(i: nat): nat {
      if i < |earlier| then earlier[i] else base
    }
  }

  const INIT := State(0, None, false, map[], map[], 0, [], 0, 0, 0)

  datatype Event =
    | Tick(t: nat)
    | ReadGeneration(id: nat, span: string)
    | Lookup(id: nat)
    | LookupFails(id: nat)
    | Query(id: nat, payload: string)
    | Write(id: nat)
    | Abandon(id: nat)
    | BumpIncr
    | BumpExpire
    | BumpExpireFails

  predicate Enabled(p: Params, s: State, e: Event) {
    match e
    case Tick(t) => t >= s.now
    case ReadGeneration(id, _) => id !in s.readers
    case Lookup(id) => id in s.readers && s.readers[id].phase.Reading?
    case LookupFails(id) => id in s.readers && s.readers[id].phase.Reading?
    case Query(id, _) => id in s.readers && s.readers[id].phase.Missed?
    case Write(id) =>
      id in s.readers && s.readers[id].phase.Queried? && s.now <= s.readers[id].readAt + p.D
    case Abandon(id) => id in s.readers
    case BumpIncr =>
      if s.counter.Some? then s.counter.value.value < MAX_INT64
      else s.earlier != [] ==> s.now >= s.renewed + p.S
    case BumpExpire => s.expiring
    case BumpExpireFails => s.expiring
  }

  /** Does the counter expire when the clock reaches t? */
  predicate Expires(s: State, t: nat) {
    s.counter.Some? && s.counter.value.deadline.Some? && s.counter.value.deadline.value <= t
  }

  function After(p: Params, s: State, e: Event): State
    requires Enabled(p, s, e)
  {
    match e
    case Tick(t) =>
      var live := s.answers - set k | k in s.answers && s.answers[k].deadline <= t;
      if Expires(s, t) then
        s.(now := t, answers := live, counter := None, earlier := s.earlier + [s.base],
           base := s.epoch, renewed := s.counter.value.deadline.value)
      else
        s.(now := t, answers := live)
    case ReadGeneration(id, span) =>
      s.(readers := s.readers[id := Reader(span, s.Gen(), s.Life(), s.epoch, s.now, Reading)])
    case Lookup(id) =>
      var r := s.readers[id];
      if (r.gen, r.span) in s.answers then s.(readers := s.readers - {id})
      else s.(readers := s.readers[id := r.(phase := Missed)])
    case LookupFails(id) => s.(readers := s.readers[id := s.readers[id].(phase := Missed)])
    case Query(id, payload) =>
      s.(readers := s.readers[id := s.readers[id].(phase := Queried(payload, s.epoch, s.now))])
    case Write(id) =>
      var r := s.readers[id];
      var a := Answer(r.phase.payload, r.life, r.phase.epoch, r.readAt, r.phase.at, s.now + p.R);
      s.(answers := s.answers[(r.gen, r.span) := a], readers := s.readers - {id})
    case Abandon(id) => s.(readers := s.readers - {id})
    case BumpIncr =>
      (match s.counter
       case None => s.(counter := Some(Counter(1, None)), expiring := true, epoch := s.epoch + 1, born := s.now)
       case Some(c) => s.(counter := Some(c.(value := c.value + 1)), epoch := s.epoch + 1))
    case BumpExpire =>
      if s.counter.Some? then
        s.(counter := Some(s.counter.value.(deadline := Some(s.now + p.G))), expiring := false)
      else s.(expiring := false)
    case BumpExpireFails => s.(expiring := false)
  }

  /** Can these events happen one after the other? */
  predicate Admissible(p: Params, s: State, es: seq<Event>)
    decreases |es|
  {
    es == [] || (Enabled(p, s, es[0]) && Admissible(p, After(p, s, es[0]), es[1..]))
  }

  function Run(p: Params, s: State, es: seq<Event>): State
    requires Admissible(p, s, es)
    decreases |es|
  {
    if es == [] then s else Run(p, After(p, s, es[0]), es[1..])
  }

  /** Reader id has a cached answer in front of it. */
  predicate Hits(s: State, id: nat) {
    id in s.readers && s.readers[id].phase.Reading? && (s.readers[id].gen, s.readers[id].span) in s.answers
  }

  function Hit(s: State, id: nat): Answer
    requires Hits(s, id)
  {
    s.answers[(s.readers[id].gen, s.readers[id].span)]
  }

  /** The data behind the hit was queried after every bump the reader's generation read followed. */
  predicate Fresh(s: State, id: nat)
    requires Hits(s, id)
  {
    Hit(s, id).epoch >= s.readers[id].epoch
  }

  ghost predicate Safe(s: State) {
    forall id :: Hits(s, id) ==> Fresh(s, id)
  }

  /** The states some run from the empty cache reaches. */
  ghost predicate Reachable(p: Params, s: State) {
    exists es :: Admissible(p, INIT, es) && Run(p, INIT, es) == s
  }

  ghost predicate AlwaysSafe(p: Params) {
    forall s :: Reachable(p, s) ==> Safe(s)
  }

  // ------------------------------------------------------------------ the untimed invariant

  ghost predicate CounterOk(p: Params, s: State) {
    && (forall i, j :: 0 <= i <= j <= s.Life() ==> s.Base(i) <= s.Base(j))
    && s.base + s.Gen() == s.epoch && s.renewed <= s.now
    && (s.expiring ==> s.counter.Some? && s.counter.value.deadline.None?)
    && (s.counter.Some? ==> s.counter.value.value > 0 && s.renewed <= s.born <= s.now)
    && (s.counter.Some? && s.counter.value.deadline.Some? ==>
          s.now < s.counter.value.deadline.value && s.born + p.G <= s.counter.value.deadline.value)
  }

  ghost predicate ReaderOk(s: State, r: Reader) {
    && r.life <= s.Life() && r.epoch == s.Base(r.life) + r.gen && r.epoch <= s.epoch && r.readAt <= s.now
    && (r.phase.Queried? ==> r.epoch <= r.phase.epoch && r.readAt <= r.phase.at <= s.now)
  }

  ghost predicate AnswerOk(p: Params, s: State, gen: nat, a: Answer) {
    && a.life <= s.Life() && a.epoch >= s.Base(a.life) + gen
    && a.readAt <= a.queriedAt <= s.now <  a.deadline <= a.readAt + p.D + p.R
  }

  ghost predicate Inv(p: Params, s: State) {
    && CounterOk(p, s)
    && (forall id :: id in s.readers ==> ReaderOk(s, s.readers[id]))
    && (forall k :: k in s.answers ==> AnswerOk(p, s, k.0, s.answers[k]))
  }

  lemma {:induction false} CounterStep(p: Params, s: State, e: Event)
    requires p.Valid() && CounterOk(p, s) && Enabled(p, s, e)
    ensures CounterOk(p, After(p, s, e))
    ensures Later(s, After(p, s, e))
  {
    var s' := After(p, s, e);
    assert forall i :: 0 <= i <= s.Life() ==> s'.Base(i) == s.Base(i) <= s.Base(s.Life()) == s.base;
  }

  /** s' is a later state that remembers the same counter lives. */
  ghost predicate Later(s: State, s': State) {
    && s.now <= s'.now && s.epoch <= s'.epoch && s.Life() <= s'.Life()
    && forall i :: 0 <= i <= s.Life() ==> s'.Base(i) == s.Base(i)
  }

  lemma {:induction false} ReaderKept(s: State, s': State, r: Reader)
    requires ReaderOk(s, r) && Later(s, s')
    ensures ReaderOk(s', r)
  {
  }

  /** What an event can make of a reader: a new one, the same one, or the same one in a new phase. */
  lemma {:induction false} ReaderAfter(p: Params, s: State, e: Event, id: nat)
    requires Enabled(p, s, e) && id in After(p, s, e).readers
    ensures var r := After(p, s, e).readers[id];
            || (r.gen == s.Gen() && r.life == s.Life() && r.epoch == s.epoch && r.readAt == s.now && r.phase.Reading?
                && After(p, s, e) == s.(readers := s.readers[id := r]))
            || (id in s.readers && r == s.readers[id].(phase := r.phase)
                && (r.phase.Queried? && r.phase != s.readers[id].phase ==>
                      r.phase.epoch == s.epoch && r.phase.at == s.now && After(p, s, e).now == s.now))
  {
  }

  lemma {:induction false} ReaderStep(p: Params, s: State, e: Event, id: nat)
    requires p.Valid() && Inv(p, s) && Enabled(p, s, e) && id in After(p, s, e).readers
    ensures ReaderOk(After(p, s, e), After(p, s, e).readers[id])
  {
    CounterStep(p, s, e);
    ReaderAfter(p, s, e, id);
    var s' := After(p, s, e);
    var r := s'.readers[id];
    if id in s.readers && r == s.readers[id].(phase := r.phase) {
      ReaderKept(s, s', s.readers[id]);
    } else {
      assert s'.Base(s'.Life()) == s.base;
    }
  }

  lemma {:induction false} AnswerKept(p: Params, s: State, s': State, gen: nat, a: Answer)
    requires AnswerOk(p, s, gen, a) && Later(s, s') && s'.now < a.deadline
    ensures AnswerOk(p, s', gen, a)
  {
  }

  lemma {:induction false} AnswerStep(p: Params, s: State, e: Event, k: (nat, string))
    requires p.Valid() && Inv(p, s) && Enabled(p, s, e) && k in After(p, s, e).answers
    ensures AnswerOk(p, After(p, s, e), k.0, After(p, s, e).answers[k])
  {
    CounterStep(p, s, e);
    var s' := After(p, s, e);
    if e.Write? && k == (s.readers[e.id].gen, s.readers[e.id].span) {
      assert ReaderOk(s, s.readers[e.id]);
    } else {
      assert k in s.answers && s'.answers[k] == s.answers[k] && s'.now < s.answers[k].deadline;
      AnswerKept(p, s, s', k.0, s.answers[k]);
    }
  }

  lemma {:induction false} InvStep(p: Params, s: State, e: Event)
    requires p.Valid() && Inv(p, s) && Enabled(p, s, e)
    ensures Inv(p, After(p, s, e))
  {
    var s' := After(p, s, e);
    CounterStep(p, s, e);
    forall id | id in s'.readers ensures ReaderOk(s', s'.readers[id]) {
      ReaderStep(p, s, e, id);
    }
    forall k | k in s'.answers ensures AnswerOk(p, s', k.0, s'.answers[k]) {
      AnswerStep(p, s, e, k);
    }
  }

  // ------------------------------------------------------------------ the timed invariant

  /** The exact condition on the four times. */
  predicate Spaced(p: Params) {
    p.D + p.R <= p.G && p.D + p.R <= p.S + 1
  }

  /**
   * What a generation read leaves behind. Material read under 0 precedes the counter's first bump,
   * so with D + R <= G it is dead when 0 is current again; material read under a later generation
   * precedes the expiry, so with Spaced it is dead at the next life's first bump.
   */
  ghost predicate Spent(p: Params, s: State, gen: nat, life: nat, readAt: nat) {
    && (life == s.Life() && s.counter.None? ==> gen == 0)
    && (life == s.Life() && s.counter.Some? && gen == 0 ==> readAt <= s.born)
    && (life < s.Life() && gen > 0 ==> readAt < s.renewed)
    && (p.D + p.R <= p.G && life < s.Life() && gen == 0 ==> readAt + p.D + p.R <= s.renewed)
    && (Spaced(p) && life < s.Life() && gen > 0 && s.counter.Some? ==> readAt + p.D + p.R <= s.born)
    && (Spaced(p) && life + 1 < s.Life() ==> readAt + p.D + p.R <= s.renewed)
  }

  ghost predicate Timed(p: Params, s: State) {
    && (forall id :: id in s.readers ==> Spent(p, s, s.readers[id].gen, s.readers[id].life, s.readers[id].readAt))
    && (forall k :: k in s.answers ==> Spent(p, s, k.0, s.answers[k].life, s.answers[k].readAt))
  }

  /** Time passing, an expiry or a bump keeps what is spent spent. */
  lemma {:induction false} SpentStep(p: Params, s: State, e: Event, gen: nat, life: nat, readAt: nat)
    requires p.Valid() && Inv(p, s) && Enabled(p, s, e)
    requires Spent(p, s, gen, life, readAt) && readAt <= s.now && life <= s.Life()
    ensures Spent(p, After(p, s, e), gen, life, readAt)
  {
  }

  lemma {:induction false} TimedReaders(p: Params, s: State, e: Event, id: nat)
    requires p.Valid() && Inv(p, s) && Timed(p, s) && Enabled(p, s, e) && id in After(p, s, e).readers
    ensures var r := After(p, s, e).readers[id];
            Spent(p, After(p, s, e), r.gen, r.life, r.readAt)
  {
    ReaderAfter(p, s, e, id);
    var r := After(p, s, e).readers[id];
    if id in s.readers && r == s.readers[id].(phase := r.phase) {
      assert ReaderOk(s, s.readers[id]);
      SpentStep(p, s, e, r.gen, r.life, r.readAt);
    }
  }

  lemma {:induction false} TimedAnswers(p: Params, s: State, e: Event, k: (nat, string))
    requires p.Valid() && Inv(p, s) && Timed(p, s) && Enabled(p, s, e) && k in After(p, s, e).answers
    ensures var a := After(p, s, e).answers[k];
            Spent(p, After(p, s, e), k.0, a.life, a.readAt)
  {
    if e.Write? && k == (s.readers[e.id].gen, s.readers[e.id].span) {
      var r := s.readers[e.id];
      assert ReaderOk(s, r);
      SpentStep(p, s, e, r.gen, r.life, r.readAt);
    } else {
      assert k in s.answers && AnswerOk(p, s, k.0, s.answers[k]);
      SpentStep(p, s, e, k.0, s.answers[k].life, s.answers[k].readAt);
    }
  }

  lemma {:induction false} TimedStep(p: Params, s: State, e: Event)
    requires p.Valid() && Inv(p, s) && Timed(p, s) && Enabled(p, s, e)
    ensures Timed(p, After(p, s, e))
  {
    forall id | id in After(p, s, e).readers
      ensures var r := After(p, s, e).readers[id];
              Spent(p, After(p, s, e), r.gen, r.life, r.readAt)
    {
      TimedReaders(p, s, e, id);
    }
    forall k | k in After(p, s, e).answers
      ensures var a := After(p, s, e).answers[k];
              Spent(p, After(p, s, e), k.0, a.life, a.readAt)
    {
      TimedAnswers(p, s, e, k);
    }
  }

  // ------------------------------------------------------------------ runs

  lemma {:induction false} InvRun(p: Params, s: State, es: seq<Event>)
    requires p.Valid() && Inv(p, s) && Timed(p, s) && Admissible(p, s, es)
    ensures Inv(p, Run(p, s, es)) && Timed(p, Run(p, s, es))
    decreases |es|
  {
    if es != [] {
      InvStep(p, s, es[0]);
      TimedStep(p, s, es[0]);
      InvRun(p, After(p, s, es[0]), es[1..]);
    }
  }

  lemma {:induction false} ReachableInv(p: Params, s: State)
    requires p.Valid() && Reachable(p, s)
    ensures Inv(p, s) && Timed(p, s)
  {
    var es :| Admissible(p, INIT, es) && Run(p, INIT, es) == s;
    InvRun(p, INIT, es);
  }

  /**
   * No timing is needed against the reader's own life or a later one: however slow readers and
   * writes are, and however many EXPIRE calls fail, only an answer left over from an earlier
   * counter life can be stale.
   */
  lemma {:induction false} OnlyEarlierLivesAreStale(p: Params, s: State, id: nat)
    requires p.Valid() && Inv(p, s) && Hits(s, id)
    ensures Hit(s, id).life >= s.readers[id].life ==> Fresh(s, id)
  {
    var r := s.readers[id];
    assert ReaderOk(s, r) && AnswerOk(p, s, r.gen, Hit(s, id));
    assert s.Base(r.life) <= s.Base(Hit(s, id).life) || Hit(s, id).life < r.life;
  }

  /** While no counter has expired, every run is safe for all D, R, G and S. */
  lemma {:induction false} SafeWithinLife(p: Params, s: State)
    requires p.Valid() && Reachable(p, s) && s.Life() == 0
    ensures Safe(s)
  {
    ReachableInv(p, s);
    forall id | Hits(s, id) ensures Fresh(s, id) {
      assert ReaderOk(s, s.readers[id]);
      OnlyEarlierLivesAreStale(p, s, id);
    }
  }

  /** Any answer served at time t was queried after t - (D + R), spaced or not. */
  lemma {:induction false} BoundedStaleness(p: Params, s: State, id: nat)
    requires p.Valid() && Reachable(p, s) && Hits(s, id)
    ensures s.now < Hit(s, id).queriedAt + p.D + p.R
  {
    ReachableInv(p, s);
    assert AnswerOk(p, s, s.readers[id].gen, Hit(s, id));
  }

  /** With D + R <= G the reuse of generation 0 is harmless, whatever the spacing of the lives. */
  lemma {:induction false} ZeroReuseIsSafe(p: Params, s: State, id: nat)
    requires p.Valid() && p.D + p.R <= p.G && Reachable(p, s)
    requires Hits(s, id) && s.readers[id].gen == 0
    ensures Fresh(s, id)
  {
    ReachableInv(p, s);
    var r, a := s.readers[id], Hit(s, id);
    assert ReaderOk(s, r) && AnswerOk(p, s, 0, a) && Spent(p, s, 0, a.life, a.readAt);
    OnlyEarlierLivesAreStale(p, s, id);
  }

  lemma {:induction false} SpacedIsSafe(p: Params, s: State)
    requires p.Valid() && Spaced(p) && Inv(p, s) && Timed(p, s)
    ensures Safe(s)
  {
    forall id | Hits(s, id) ensures Fresh(s, id) {
      var r, a := s.readers[id], Hit(s, id);
      assert ReaderOk(s, r) && AnswerOk(p, s, r.gen, a);
      assert Spent(p, s, r.gen, a.life, a.readAt) && Spent(p, s, r.gen, r.life, r.readAt);
      OnlyEarlierLivesAreStale(p, s, id);
    }
  }

  // ------------------------------------------------------------------ the condition is exact

  lemma {:induction false} RunSnoc(p: Params, s: State, es: seq<Event>, e: Event)
    requires Admissible(p, s, es) && Enabled(p, Run(p, s, es), e)
    ensures Admissible(p, s, es + [e]) && Run(p, s, es + [e]) == After(p, Run(p, s, es), e)
    decreases |es|
  {
    if es == [] {
      assert es + [e] == [e];
    } else {
      assert (es + [e])[1..] == es[1..] + [e];
      RunSnoc(p, After(p, s, es[0]), es[1..], e);
    }
  }

  lemma {:induction false} RunOne(p: Params, s: State, e: Event)
    requires Enabled(p, s, e)
    ensures Admissible(p, s, [e]) && Run(p, s, [e]) == After(p, s, e)
  {
    RunSnoc(p, s, [], e);
  }

  lemma {:induction false} RunCons(p: Params, s: State, e: Event, es: seq<Event>)
    requires Enabled(p, s, e) && Admissible(p, After(p, s, e), es)
    ensures Admissible(p, s, [e] + es) && Run(p, s, [e] + es) == Run(p, After(p, s, e), es)
  {
    assert ([e] + es)[1..] == es;
  }

  lemma {:induction false} Reach(p: Params, s: State, e: Event) returns (s': State)
    requires Reachable(p, s) && Enabled(p, s, e)
    ensures Reachable(p, s') && s' == After(p, s, e)
  {
    var es :| Admissible(p, INIT, es) && Run(p, INIT, es) == s;
    RunSnoc(p, INIT, es, e);
    s' := After(p, s, e);
  }

  lemma {:induction false} ZeroReuseBegins(p: Params) returns (s: State)
    ensures Reachable(p, s)
    ensures s == INIT.(counter := Some(Counter(1, Some(p.G))), epoch := 1,
                       readers := map[0 := Reader("", 0, 0, 0, 0, Queried("", 0, 0))])
  {
    assert Admissible(p, INIT, []) && Run(p, INIT, []) == INIT;
    s := Reach(p, INIT, ReadGeneration(0, ""));
    s := Reach(p, s, Lookup(0));
    s := Reach(p, s, Query(0, ""));
    s := Reach(p, s, BumpIncr);
    s := Reach(p, s, BumpExpire);
  }

  /** A reader caches under 0 just before the first bump and its answer outlives the counter. */
  lemma {:induction false} ZeroReuseIsStale(p: Params) returns (s: State)
    requires p.Valid() && p.D + p.R > p.G
    ensures Reachable(p, s) && !Safe(s)
  {
    s := ZeroReuseBegins(p);
    s := Reach(p, s, Tick(p.D));
    s := Reach(p, s, Write(0));
    s := Reach(p, s, Tick(if p.G < p.D then p.D else p.G));
    s := Reach(p, s, ReadGeneration(1, ""));
    assert Hits(s, 1) && !Fresh(s, 1);
  }

  lemma {:induction false} OneReuseBegins(p: Params) returns (s: State)
    requires p.Valid()
    ensures Reachable(p, s)
    ensures s == INIT.(now := p.G - 1, counter := Some(Counter(1, Some(p.G))), epoch := 1,
                       readers := map[0 := Reader("", 1, 0, 1, p.G - 1, Queried("", 1, p.G - 1))])
  {
    assert Admissible(p, INIT, []) && Run(p, INIT, []) == INIT;
    s := Reach(p, INIT, BumpIncr);
    s := Reach(p, s, BumpExpire);
    s := Reach(p, s, Tick(p.G - 1));
    s := Reach(p, s, ReadGeneration(0, ""));
    s := Reach(p, s, Lookup(0));
    s := Reach(p, s, Query(0, ""));
  }

  /**
   * A reader caches under 1 in the last instant of a counter's life; the counter expires, and the
   * first bump of the next life makes 1 current again while the old answer is live.
   */
  lemma {:induction false} OneReuseIsStale(p: Params) returns (s: State)
    requires p.Valid() && p.D + p.R > p.S + 1
    ensures Reachable(p, s) && !Safe(s)
  {
    var next := p.G + p.S;
    s := OneReuseBegins(p);
    s := Reach(p, s, Tick(if p.G - 1 + p.D < next then p.G - 1 + p.D else next));
    s := Reach(p, s, Write(0));
    s := Reach(p, s, Tick(next));
    s := Reach(p, s, BumpIncr);
    s := Reach(p, s, ReadGeneration(1, ""));
    assert Hits(s, 1) && !Fresh(s, 1);
  }

  /** The protocol is safe over all runs exactly when the times are spaced. */
  lemma {:induction false} AlwaysSafeIff(p: Params)
    requires p.Valid()
    ensures AlwaysSafe(p) <==> Spaced(p)
  {
    if p.D + p.R > p.G {
      var s := ZeroReuseIsStale(p);
    } else if p.D + p.R > p.S + 1 {
      var s := OneReuseIsStale(p);
    } else {
      forall s | Reachable(p, s) ensures Safe(s) {
        ReachableInv(p, s);
        SpacedIsSafe(p, s);
      }
    }
  }

  const SECOND: nat := 1_000_000_000
  const STATISTICS_READ_TTL: nat := 60 * SECOND
  const GENERATION_TTL: nat := 7 * 24 * 3600 * SECOND

  /**
   * With the deployed lives, D at most 6 days 23 hours 59 minutes makes the reuse of 0 harmless,
   * but nothing in the code spaces the lives (S = 0): a purge may be followed by a stale answer,
   * for every D.
   */
  lemma {:induction false} DeployedTimes(D: nat, S: nat)
    ensures AlwaysSafe(Params(D, STATISTICS_READ_TTL, GENERATION_TTL, S)) <==>
            D + 60 * SECOND <= 7 * 24 * 3600 * SECOND && D + 60 * SECOND <= S + 1
    ensures !AlwaysSafe(Params(D, STATISTICS_READ_TTL, GENERATION_TTL, 0))
  {
    AlwaysSafeIff(Params(D, STATISTICS_READ_TTL, GENERATION_TTL, S));
    AlwaysSafeIff(Params(D, STATISTICS_READ_TTL, GENERATION_TTL, 0));
  }
}
