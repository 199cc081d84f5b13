/**
 * The generation protocol carried out on the Redis keyspace: string keys, decimal counters and
 * deadlines, for any number of profiles that share the server with unrelated keys.
 */
module StatisticsCache {
  import opened Wrappers
  import opened Text
  import opened Redis
  import opened Keys
  import opened Generations

  function CounterKey(profileId: string): string {
    GenerationKey(STATISTICS_READ_SCOPE, profileId)
  }

  function DeadlineOf(db: Db, k: string): Option<nat> {
    if k in db.deadlines then Some(db.deadlines[k]) else None
  }

  /** What Generation reads: a missing counter is 0, an unreadable one an error, never 0. */
  function GenerationOf(db: Db, scope: string, profileId: string): Result<int> {
    match db.Peek(GenerationKey(scope, profileId))
    case None => Ok(0)
    case Some(Str(raw)) => (match ParseInt(raw) case Some(n) => Ok(n) case None => Err)
    case Some(_) => Err
  }

  /** What GetStatistics reads: Ok(None) is a miss. */
  function StatisticsOf(db: Db, profileId: string, timespan: string, gen: int): Result<Option<string>> {
    match db.Peek(StatisticsReadKey(profileId, gen, timespan))
    case None => Ok(None)
    case Some(Str(payload)) => Ok(Some(payload))
    case Some(_) => Err
  }

  // ------------------------------------------------------------------ one profile

  predicate ShowsCounter(db: Db, profileId: string, s: State) {
    var k := CounterKey(profileId);
    match s.counter
    case None => db.Peek(k) == None && DeadlineOf(db, k) == None
    case Some(c) =>
      c.value <= MAX_INT64 && db.Peek(k) == Some(Str(FormatInt(c.value))) && DeadlineOf(db, k) == c.deadline
  }

  predicate ShowsAnswer(db: Db, profileId: string, s: State, gen: nat, span: string) {
    var k := StatisticsReadKey(profileId, gen, span);
    if (gen, span) in s.answers then
      var a := s.answers[(gen, span)];
      db.Peek(k) == Some(Str(a.payload)) && DeadlineOf(db, k) == Some(a.deadline)
    else
      db.Peek(k) == None && DeadlineOf(db, k) == None
  }

  /** The keyspace holds exactly the counter and the answers of s for this profile. */
  ghost predicate Shows(db: Db, profileId: string, s: State) {
    && db.now == s.now
    && ShowsCounter(db, profileId, s)
    && (forall gen: nat, span :: ShowsAnswer(db, profileId, s, gen, span))
  }

  /** The store command an event issues, if any. */
  function Command(p: Params, profileId: string, s: State, e: Event): Option<Cmd>
    requires Enabled(p, s, e)
  {
    match e
    case Write(id) =>
      var r := s.readers[id];
      Some(Set(StatisticsReadKey(profileId, r.gen, r.span), r.phase.payload, p.R))
    case BumpIncr => Some(Incr(CounterKey(profileId)))
    case BumpExpire => Some(Expire(CounterKey(profileId), p.G))
    case _ => None
  }

  function Perform(db: Db, c: Option<Cmd>): Db {
    match c
    case None => db
    case Some(cmd) => Apply(db, cmd)
  }

  /** Reads of the keyspace return what the protocol state says. */
  lemma {:induction false} ReadsAgree(db: Db, profileId: string, s: State, gen: nat, span: string)
    requires Shows(db, profileId, s)
    ensures GenerationOf(db, STATISTICS_READ_SCOPE, profileId) == Ok(s.Gen())
    ensures StatisticsOf(db, profileId, span, gen) ==
            Ok(if (gen, span) in s.answers then Some(s.answers[(gen, span)].payload) else None)
  {
    IntRoundTrip(if s.Gen() <= MAX_INT64 then s.Gen() else 0);
    assert ShowsAnswer(db, profileId, s, gen, span);
  }

  lemma {:induction false} AnswerTick(p: Params, db: Db, profileId: string, s: State, t: nat, gen: nat, span: string)
    requires ShowsAnswer(db, profileId, s, gen, span) && t >= s.now
    ensures ShowsAnswer(Advance(db, t), profileId, After(p, s, Tick(t)), gen, span)
  {
  }

  lemma {:induction false} ShowsTick(p: Params, db: Db, profileId: string, s: State, t: nat)
    requires Shows(db, profileId, s) && t >= s.now
    ensures Shows(Advance(db, t), profileId, After(p, s, Tick(t)))
  {
    var db', s' := Advance(db, t), After(p, s, Tick(t));
    forall gen: nat, span ensures ShowsAnswer(db', profileId, s', gen, span) {
      assert ShowsAnswer(db, profileId, s, gen, span);
      AnswerTick(p, db, profileId, s, t, gen, span);
    }
  }

  lemma {:induction false} IncrCounter(db: Db, k: string, n: nat)
    requires n < MAX_INT64 && db.Peek(k) == (if n == 0 then None else Some(Str(FormatInt(n))))
    ensures !Fails(db, Incr(k)) && Apply(db, Incr(k)) == db.Put(k, Str(FormatInt(n + 1)))
  {
    IntRoundTrip(n);
  }

  lemma {:induction false} ShowsWrite(p: Params, db: Db, profileId: string, s: State, id: nat)
    requires p.Valid() && ColonFree(profileId) && Shows(db, profileId, s) && Enabled(p, s, Write(id))
    ensures Shows(Perform(db, Command(p, profileId, s, Write(id))), profileId, After(p, s, Write(id)))
  {
    var db', s' := Perform(db, Command(p, profileId, s, Write(id))), After(p, s, Write(id));
    var r := s.readers[id];
    forall gen: nat, span ensures ShowsAnswer(db', profileId, s', gen, span) {
      assert ShowsAnswer(db, profileId, s, gen, span);
      if StatisticsReadKey(profileId, gen, span) == StatisticsReadKey(profileId, r.gen, r.span) {
        AnswerKeysInjective(profileId, gen, span, profileId, r.gen, r.span);
      }
    }
    CounterIsNoAnswer(profileId, profileId, r.gen, r.span);
  }

  lemma {:induction false} ShowsBump(p: Params, db: Db, profileId: string, s: State, e: Event)
    requires p.Valid() && Inv(p, s) && Shows(db, profileId, s) && Enabled(p, s, e)
    requires e.BumpIncr? || e.BumpExpire?
    ensures Shows(Perform(db, Command(p, profileId, s, e)), profileId, After(p, s, e))
  {
    var db', s' := Perform(db, Command(p, profileId, s, e)), After(p, s, e);
    if e.BumpIncr? {
      IncrCounter(db, CounterKey(profileId), s.Gen());
    }
    forall gen: nat, span ensures ShowsAnswer(db', profileId, s', gen, span) {
      assert ShowsAnswer(db, profileId, s, gen, span);
      CounterIsNoAnswer(profileId, profileId, gen, span);
    }
  }

  lemma {:induction false} ShowsSame(db: Db, profileId: string, s: State, s': State)
    requires Shows(db, profileId, s) && s'.now == s.now && s'.counter == s.counter && s'.answers == s.answers
    ensures Shows(db, profileId, s')
  {
    forall gen: nat, span ensures ShowsAnswer(db, profileId, s', gen, span) {
      assert ShowsAnswer(db, profileId, s, gen, span);
    }
  }

  /** Each event's command keeps the keyspace in step with the protocol state. */
  lemma {:induction false} ShowsEvent(p: Params, db: Db, profileId: string, s: State, e: Event)
    requires p.Valid() && ColonFree(profileId) && Inv(p, s)
    requires Shows(db, profileId, s) && Enabled(p, s, e) && !e.Tick?
    ensures Shows(Perform(db, Command(p, profileId, s, e)), profileId, After(p, s, e))
  {
    if e.Write? {
      ShowsWrite(p, db, profileId, s, e.id);
    } else if e.BumpIncr? || e.BumpExpire? {
      ShowsBump(p, db, profileId, s, e);
    } else {
      ShowsSame(db, profileId, s, After(p, s, e));
    }
  }

  /** A command that writes none of the profile's keys goes unnoticed. */
  lemma {:induction false} ShowsFrame(db: Db, c: Cmd, profileId: string, s: State)
    requires Shows(db, profileId, s) && CounterKey(profileId) !in Written(c)
    requires forall gen: nat, span :: StatisticsReadKey(profileId, gen, span) !in Written(c)
    ensures Shows(Apply(db, c), profileId, s)
  {
    Frame(db, c, CounterKey(profileId));
    forall gen: nat, span ensures ShowsAnswer(Apply(db, c), profileId, s, gen, span) {
      assert ShowsAnswer(db, profileId, s, gen, span);
      Frame(db, c, StatisticsReadKey(profileId, gen, span));
    }
  }

  // ------------------------------------------------------------------ the whole server

  datatype System = System(db: Db, profiles: map<string, State>)

  /** Time passes for everyone, a client of one profile acts, or another user of the server writes. */
  datatype Move = Pass(t: nat) | Act(profileId: string, e: Event) | Foreign(c: Cmd)

  predicate Allowed(p: Params, y: System, m: Move) {
    match m
    case Pass(t) => t >= y.db.now
    case Act(profileId, e) => profileId in y.profiles && !e.Tick? && Enabled(p, y.profiles[profileId], e)
    case Foreign(c) => forall k :: k in Written(c) ==> !HasPrefix(k, STATISTICS_READ_SCOPE)
  }

  function Passed(p: Params, s: State, t: nat): State {
    if t >= s.now then After(p, s, Tick(t)) else s
  }

  /** Time passes for every profile. */
  ghost function AllPassed(p: Params, profiles: map<string, State>, t: nat): (r: map<string, State>)
    ensures r.Keys == profiles.Keys
    ensures forall q :: q in profiles ==> r[q] == Passed(p, profiles[q], t)
  {
    if profiles == map[] then map[]
    else
      var q :| q in profiles;
      assert profiles.Keys == (profiles - {q}).Keys + {q};
      AllPassed(p, profiles - {q}, t)[q := Passed(p, profiles[q], t)]
  }

  ghost function Next(p: Params, y: System, m: Move): System
    requires Allowed(p, y, m)
  {
    match m
    case Pass(t) => System(Advance(y.db, t), AllPassed(p, y.profiles, t))
    case Act(q, e) =>
      System(Perform(y.db, Command(p, q, y.profiles[q], e)), y.profiles[q := After(p, y.profiles[q], e)])
    case Foreign(c) => System(Apply(y.db, c), y.profiles)
  }

  ghost predicate AllAllowed(p: Params, y: System, ms: seq<Move>)
    decreases |ms|
  {
    ms == [] || (Allowed(p, y, ms[0]) && AllAllowed(p, Next(p, y, ms[0]), ms[1..]))
  }

  ghost function Moved(p: Params, y: System, ms: seq<Move>): System
    requires AllAllowed(p, y, ms)
    decreases |ms|
  {
    if ms == [] then y else Moved(p, Next(p, y, ms[0]), ms[1..])
  }

  ghost predicate SystemInv(p: Params, y: System) {
    forall q :: q in y.profiles ==>
      ColonFree(q) && Shows(y.db, q, y.profiles[q]) && Inv(p, y.profiles[q]) && Timed(p, y.profiles[q])
  }

  /** A server at time 0 that holds no key of the read cache, and the profiles that will use it. */
  ghost predicate Start(y: System) {
    && y.db.now == 0
    && (forall k :: k in y.db.keys || k in y.db.deadlines ==> !HasPrefix(k, STATISTICS_READ_SCOPE))
    && (forall q :: q in y.profiles ==> ColonFree(q) && y.profiles[q] == INIT)
  }

  lemma {:induction false} CacheKeysHavePrefix(profileId: string, gen: int, span: string)
    ensures HasPrefix(CounterKey(profileId), STATISTICS_READ_SCOPE)
    ensures HasPrefix(StatisticsReadKey(profileId, gen, span), STATISTICS_READ_SCOPE)
  {
    var k := StatisticsReadKey(profileId, gen, span);
    assert k == STATISTICS_READ_SCOPE + (":" + profileId + ":g" + FormatInt(gen) + ":" + span);
    assert CounterKey(profileId) == STATISTICS_READ_SCOPE + ("-gen:" + profileId);
  }

  lemma {:induction false} StartInv(p: Params, y: System)
    requires Start(y)
    ensures SystemInv(p, y)
  {
    forall q | q in y.profiles ensures Shows(y.db, q, INIT) {
      forall gen: nat, span ensures ShowsAnswer(y.db, q, INIT, gen, span) {
        CacheKeysHavePrefix(q, gen, span);
      }
      CacheKeysHavePrefix(q, 0, "");
    }
  }

  lemma {:induction false} ActInv(p: Params, y: System, a: string, e: Event, q: string)
    requires p.Valid() && SystemInv(p, y) && Allowed(p, y, Act(a, e)) && q in y.profiles && q != a
    ensures Shows(Next(p, y, Act(a, e)).db, q, y.profiles[q])
  {
    var c := Command(p, a, y.profiles[a], e);
    if c.Some? {
      forall gen: nat, span ensures StatisticsReadKey(q, gen, span) !in Written(c.value) {
        CounterIsNoAnswer(a, q, gen, span);
        if e.Write? {
          var r := y.profiles[a].readers[e.id];
          if StatisticsReadKey(q, gen, span) == StatisticsReadKey(a, r.gen, r.span) {
            AnswerKeysInjective(q, gen, span, a, r.gen, r.span);
          }
        }
      }
      if e.Write? {
        CounterIsNoAnswer(q, a, y.profiles[a].readers[e.id].gen, y.profiles[a].readers[e.id].span);
      } else if CounterKey(a) == CounterKey(q) {
        CounterKeysInjective(a, q);
      }
      ShowsFrame(y.db, c.value, q, y.profiles[q]);
    }
  }

  lemma {:induction false} MoveInv(p: Params, y: System, m: Move)
    requires p.Valid() && SystemInv(p, y) && Allowed(p, y, m)
    ensures SystemInv(p, Next(p, y, m))
  {
    var y' := Next(p, y, m);
    forall q | q in y'.profiles
      ensures ColonFree(q) && Shows(y'.db, q, y'.profiles[q]) && Inv(p, y'.profiles[q]) && Timed(p, y'.profiles[q])
    {
      var s := y.profiles[q];
      match m
      case Pass(t) =>
        ShowsTick(p, y.db, q, s, t);
        InvStep(p, s, Tick(t));
        TimedStep(p, s, Tick(t));
      case Act(a, e) =>
        if a == q {
          ShowsEvent(p, y.db, q, s, e);
          InvStep(p, s, e);
          TimedStep(p, s, e);
        } else {
          ActInv(p, y, a, e, q);
        }
      case Foreign(c) =>
        forall gen: nat, span ensures StatisticsReadKey(q, gen, span) !in Written(c) {
          CacheKeysHavePrefix(q, gen, span);
        }
        CacheKeysHavePrefix(q, 0, "");
        ShowsFrame(y.db, c, q, s);
    }
  }

  lemma {:induction false} RunInv(p: Params, y: System, ms: seq<Move>)
    requires p.Valid() && SystemInv(p, y) && AllAllowed(p, y, ms)
    ensures SystemInv(p, Moved(p, y, ms)) && Moved(p, y, ms).profiles.Keys == y.profiles.Keys
    decreases |ms|
  {
    if ms != [] {
      MoveInv(p, y, ms[0]);
      assert Next(p, y, ms[0]).profiles.Keys == y.profiles.Keys;
      RunInv(p, Next(p, y, ms[0]), ms[1..]);
    }
  }

  /**
   * After any moves of any number of profiles, what GetStatistics returns to a reader comes from
   * a query less than D + R ago, and from a query after every bump before the reader's generation
   * read whenever the times are spaced or the profile's counter has never expired.
   */
  lemma {:induction false} ServedAnswersAreFresh(p: Params, y: System, ms: seq<Move>, profileId: string, id: nat)
    requires p.Valid() && Start(y) && AllAllowed(p, y, ms) && profileId in y.profiles
    requires var s := Moved(p, y, ms).profiles;
             profileId in s && id in s[profileId].readers && s[profileId].readers[id].phase.Reading?
    ensures var y' := Moved(p, y, ms);
            var s := y'.profiles[profileId];
            var r := s.readers[id];
            && GenerationOf(y'.db, STATISTICS_READ_SCOPE, profileId) == Ok(s.Gen())
            && var served := StatisticsOf(y'.db, profileId, r.span, r.gen);
            && served.Ok? && (served.value.Some? <==> Hits(s, id))
            && (served.value.Some? ==>
                  && served.value.value == Hit(s, id).payload
                  && y'.db.now < Hit(s, id).queriedAt + p.D + p.R
                  && (Spaced(p) || s.Life() == 0 ==> Fresh(s, id)))
  {
    StartInv(p, y);
    RunInv(p, y, ms);
    var y' := Moved(p, y, ms);
    var s := y'.profiles[profileId];
    var r := s.readers[id];
    ReadsAgree(y'.db, profileId, s, r.gen, r.span);
    assert ReaderOk(s, r);
    if Hits(s, id) {
      assert AnswerOk(p, s, r.gen, Hit(s, id));
      OnlyEarlierLivesAreStale(p, s, id);
      if Spaced(p) {
        SpacedIsSafe(p, s);
      }
    }
  }
}
