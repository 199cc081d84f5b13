/**
 * The statistics read cache over the cache client, and the read that uses it. Each call is the
 * uninterrupted run of the protocol events it stands for: the lemmas here say which state of the
 * protocol the keyspace shows after it.
 */
module StatisticsReadCaches {
  import opened Wrappers
  import opened Text
  import opened Redis
  import opened Keys
  import opened Generations
  import opened StatisticsCache
  import opened Cache

  // ------------------------------------------------------------------ bumps

  /** The keyspace after a bump of the counter at key. */
  function BumpEnd(db: Db, key: string, l: Link): Db {
    if l.up == 0 || Fails(db, Cmd.Incr(key)) then db
    else
      var bumped := Apply(db, Cmd.Incr(key));
      if Expiring(db, key, l) then Apply(bumped, Expire(key, GENERATION_TTL)) else bumped
  }

  /** Does the EXPIRE of a bump arrive? It is sent once the reply to the INCR that created the counter is in. */
  predicate Expiring(db: Db, key: string, l: Link) {
    db.Counter(key) == Some(0) && l.heard > 0 && l.up > 1
  }

  const WEEK: nat := 604_800_000_000_000

  /**
   * The bump of the counter at key is reported as done: INCR arrived, was answered and did not fail, and so was
   * the EXPIRE of a counter it created; the reading is one more, and a counter that was absent has a deadline.
   */
  ghost predicate Bumps(before: Db, after: Db, scope: string, profileId: string, l: Link, ok: bool) {
    var key := GenerationKey(scope, profileId);
    var count := before.Counter(key);
    && (ok <==> && l.up > 0 && l.heard > 0 && count.Some? && count.value < MAX_INT64
                && (count.value == 0 ==> l.up > 1 && l.heard > 1))
    && (ok ==> && GenerationOf(before, scope, profileId) == Ok(count.value)
               && GenerationOf(after, scope, profileId) == Ok(count.value + 1))
    && (ok && key !in before.keys ==> key in after.deadlines && after.deadlines[key] == before.now + WEEK)
    && (l.up == 0 ==> after == before)
  }

  lemma {:induction false} BumpReadings(db: Db, scope: string, profileId: string, l: Link)
    requires var count := db.Counter(GenerationKey(scope, profileId));
             && l.up > 0 && l.heard > 0 && count.Some? && count.value < MAX_INT64
             && (count.value == 0 ==> l.up > 1 && l.heard > 1)
    ensures var count := db.Counter(GenerationKey(scope, profileId));
            var after := BumpEnd(db, GenerationKey(scope, profileId), l);
            && GenerationOf(db, scope, profileId) == Ok(count.value)
            && GenerationOf(after, scope, profileId) == Ok(count.value + 1)
    ensures var key := GenerationKey(scope, profileId);
            key !in db.keys ==> && key in BumpEnd(db, key, l).deadlines
                                && BumpEnd(db, key, l).deadlines[key] == db.now + WEEK
  {
    var key := GenerationKey(scope, profileId);
    var count := db.Counter(key).value;
    CounterRange(db, key);
    IntRoundTrip(count + 1);
    assert Apply(db, Cmd.Incr(key)).Peek(key) == Some(Str(FormatInt(count + 1)));
    assert BumpEnd(db, key, l).Peek(key) == Some(Str(FormatInt(count + 1)));
  }

  lemma {:induction false} CounterRange(db: Db, key: string)
    requires db.Counter(key).Some?
    ensures MIN_INT64 <= db.Counter(key).value <= MAX_INT64
  {
  }

  /** The protocol events of a bump. */
  function BumpCalls(s: State, l: Link): seq<Event> {
    if l.up == 0 then []
    else if s.counter.Some? then [BumpIncr]
    else [BumpIncr, if l.heard > 0 && l.up > 1 then BumpExpire else BumpExpireFails]
  }

  lemma {:induction false} CounterShown(p: Params, db: Db, profileId: string, s: State)
    requires Inv(p, s) && Shows(db, profileId, s) && Enabled(p, s, BumpIncr)
    ensures db.Counter(CounterKey(profileId)) == Some(s.Gen())
    ensures s.Gen() == 0 <==> s.counter.None?
    ensures !Fails(db, Cmd.Incr(CounterKey(profileId)))
  {
    IncrCounter(db, CounterKey(profileId), s.Gen());
    IntRoundTrip(s.Gen());
  }

  /**
   * A bump, whatever of it arrives and whichever replies are lost, is a run of the protocol: the
   * purge takes effect with INCR, and a missing EXPIRE only leaves the counter without a deadline.
   */
  lemma {:induction false} BumpShows(p: Params, db: Db, profileId: string, s: State, l: Link)
    requires p.Valid() && p.G == GENERATION_TTL && ColonFree(profileId) && Inv(p, s) && Shows(db, profileId, s)
    requires Enabled(p, s, BumpIncr)
    ensures Admissible(p, s, BumpCalls(s, l))
    ensures Shows(BumpEnd(db, CounterKey(profileId), l), profileId, Generations.Run(p, s, BumpCalls(s, l)))
  {
    if l.up > 0 {
      CounterShown(p, db, profileId, s);
      ShowsEvent(p, db, profileId, s, BumpIncr);
      RunOne(p, s, BumpIncr);
      if s.counter.None? {
        var s1 := After(p, s, BumpIncr);
        var e := if l.heard > 0 && l.up > 1 then BumpExpire else BumpExpireFails;
        InvStep(p, s, BumpIncr);
        ShowsEvent(p, Apply(db, Cmd.Incr(CounterKey(profileId))), profileId, s1, e);
        RunOne(p, s1, e);
        RunCons(p, s, BumpIncr, [e]);
        assert [BumpIncr] + [e] == BumpCalls(s, l);
      }
    }
  }

  /** A profile's generation in a scope: 0 when none is stored, an error when it cannot be read. */
  method ReadGenerationOf(base: RedisCache, scope: string, profileId: string, l: Link) returns (r: Result<int>)
    ensures r == if l.Answers() then GenerationOf(base.db, scope, profileId) else Err
  {
    var raw := base.Get(GenerationKey(scope, profileId), l);
    match raw
    case Err => r := Err;
    case Ok(None) => r := Ok(0);
    case Ok(Some(t)) =>
      var n := ParseInt(t);
      r := if n.Some? then Ok(n.value) else Err;
  }

  method BumpGeneration(base: RedisCache, scope: string, profileId: string, l: Link) returns (ok: bool)
    modifies base
    ensures base.db == BumpEnd(old(base.db), GenerationKey(scope, profileId), l)
    ensures Bumps(old(base.db), base.db, scope, profileId, l, ok)
  {
    var val;
    val, ok := base.Incr(GenerationKey(scope, profileId), GENERATION_TTL, l);
    if ok {
      BumpReadings(old(base.db), scope, profileId, l);
    }
  }

  class StatisticsReadCache {
    const base: RedisCache

    constructor (base: RedisCache)
      ensures this.base == base
    {
      this.base := base;
    }

    method Generation(profileId: string, l: Link) returns (r: Result<int>)
      ensures r == if l.Answers() then GenerationOf(base.db, STATISTICS_READ_SCOPE, profileId) else Err
    {
      r := ReadGenerationOf(base, STATISTICS_READ_SCOPE, profileId, l);
    }

    method GetStatistics(profileId: string, timespan: string, gen: int, l: Link) returns (r: Result<Option<string>>)
      ensures r == if l.Answers() then StatisticsOf(base.db, profileId, timespan, gen) else Err
    {
      r := base.Get(StatisticsReadKey(profileId, gen, timespan), l);
    }

    /** The command of a reader's Write event, see ShowsWrite. */
    method SetStatistics(profileId: string, timespan: string, gen: int, payload: string, l: Link) returns (ok: bool)
      modifies base
      ensures base.db == if l.up > 0 then WriteEnd(old(base.db), profileId, timespan, gen, payload) else old(base.db)
      ensures ok <==> l.Answers()
    {
      ok := base.Put(StatisticsReadKey(profileId, gen, timespan), payload, STATISTICS_READ_TTL, l);
    }

    /** A bump of the profile's counter, see BumpShows. */
    method InvalidateStatistics(profileId: string, l: Link) returns (ok: bool)
      modifies base
      ensures base.db == BumpEnd(old(base.db), CounterKey(profileId), l)
      ensures Bumps(old(base.db), base.db, STATISTICS_READ_SCOPE, profileId, l, ok)
    {
      ok := BumpGeneration(base, STATISTICS_READ_SCOPE, profileId, l);
    }
  }

  function WriteEnd(db: Db, profileId: string, timespan: string, gen: int, payload: string): Db {
    Apply(db, Set(StatisticsReadKey(profileId, gen, timespan), payload, STATISTICS_READ_TTL))
  }

  // ------------------------------------------------------------------ the read

  /**
   * What one read meets: whether its timespan is known, whether statistics are enabled, whether a
   * deleted history leaves nothing to query, its miss guard, the answer of its query and whether
   * that counts anything, and the links of its three cache calls.
   */
  datatype ReadInput = ReadInput(known: bool, enabled: bool, past: bool, guardFails: bool, queried: Result<string>,
                                 isEmpty: bool, gen: Link, get: Link, put: Link)

  /** Blank is a response that carries no data, for a disabled profile or an empty range. */
  datatype Reply = Blank | Cached(payload: string) | Computed(payload: string)

  /**
   * The cache-aside read. An unreadable generation skips the cache both ways; an unreadable or
   * undecodable entry counts as a miss; a failed guard or query and an empty answer write nothing.
   */
  method GetProfileStatistics(c: StatisticsReadCache, profileId: string, timespan: string, i: ReadInput,
                              decodes: string -> bool) returns (r: Result<Reply>)
    modifies c.base
    ensures r == ReadReply(old(c.base.db), profileId, timespan, i, decodes)
    ensures c.base.db == ReadEnd(old(c.base.db), profileId, timespan, i, decodes)
    ensures !i.known ==> r == Err && c.base.db == old(c.base.db)
    ensures i.known && !i.enabled ==> r == Ok(Blank) && c.base.db == old(c.base.db)
    ensures i.known && i.enabled ==>
              ReadMeans(old(c.base.db), c.base.db, profileId, timespan, i, decodes, r)
  {
    if !i.known {
      return Err;
    }
    if !i.enabled {
      return Ok(Blank);
    }
    var gen := c.Generation(profileId, i.gen);
    if gen.Ok? {
      var cached := c.GetStatistics(profileId, timespan, gen.value, i.get);
      if cached.Ok? && cached.value.Some? && decodes(cached.value.value) {
        return Ok(Cached(cached.value.value));
      }
    }
    if i.past {
      return Ok(Blank);
    }
    if i.guardFails || i.queried.Err? {
      return Err;
    }
    if gen.Ok? && !i.isEmpty {
      var ok := c.SetStatistics(profileId, timespan, gen.value, i.queried.value, i.put);
    }
    r := Ok(Computed(i.queried.value));
  }

  /**
   * An enabled read of a known timespan. With a readable generation and a decodable entry under it, that
   * entry is the reply. Otherwise an empty range gives no data, a failed guard or query an error, and
   * the queried answer is the reply, which is written under the generation when there is one.
   */
  ghost predicate ReadMeans(before: Db, after: Db, profileId: string, timespan: string, i: ReadInput,
                            decodes: string -> bool, r: Result<Reply>) {
    var gen := if i.gen.up > 0 && i.gen.heard > 0 then GenerationOf(before, STATISTICS_READ_SCOPE, profileId) else Err;
    var entry := if gen.Ok? && i.get.up > 0 && i.get.heard > 0
                 then StatisticsOf(before, profileId, timespan, gen.value) else Err;
    if entry.Ok? && entry.value.Some? && decodes(entry.value.value) then
      r == Ok(Cached(entry.value.value)) && after == before
    else if i.past then r == Ok(Blank) && after == before
    else if i.guardFails then r == Err && after == before
    else if i.queried.Err? then r == Err && after == before
    else
      && r == Ok(Computed(i.queried.value))
      && after == if gen.Err? || i.isEmpty || i.put.up == 0 then before
                  else Apply(before, Set(StatisticsReadKey(profileId, gen.value, timespan), i.queried.value,
                                         60_000_000_000))
  }

  /** The generation a read works with. */
  function ReadGen(db: Db, profileId: string, i: ReadInput): Result<int> {
    if i.gen.Answers() then GenerationOf(db, STATISTICS_READ_SCOPE, profileId) else Err
  }

  /** The cached answer a read is served, if any. */
  function Served(db: Db, profileId: string, timespan: string, i: ReadInput, decodes: string -> bool): Option<string> {
    var gen := ReadGen(db, profileId, i);
    if gen.Err? || !i.get.Answers() then None
    else match StatisticsOf(db, profileId, timespan, gen.value)
      case Ok(Some(payload)) => if decodes(payload) then Some(payload) else None
      case _ => None
  }

  function ReadReply(db: Db, profileId: string, timespan: string, i: ReadInput, decodes: string -> bool)
      : Result<Reply>
  {
    var served := Served(db, profileId, timespan, i, decodes);
    if !i.known then Err
    else if !i.enabled then Ok(Blank)
    else if served.Some? then Ok(Cached(served.value))
    else if i.past then Ok(Blank)
    else if i.guardFails then Err
    else if i.queried.Err? then Err
    else Ok(Computed(i.queried.value))
  }

  function ReadEnd(db: Db, profileId: string, timespan: string, i: ReadInput, decodes: string -> bool): Db {
    var gen := ReadGen(db, profileId, i);
    if i.known && i.enabled && gen.Ok? && Served(db, profileId, timespan, i, decodes).None?
       && !i.past && !i.guardFails && i.queried.Ok? && !i.isEmpty && i.put.up > 0
    then WriteEnd(db, profileId, timespan, gen.value, i.queried.value)
    else db
  }

  // ------------------------------------------------------------------ a read is a run of the protocol

  /** Is there a cached answer for a reader that now reads its generation? */
  predicate Fits(s: State, timespan: string, decodes: string -> bool) {
    (s.Gen(), timespan) in s.answers && decodes(s.answers[(s.Gen(), timespan)].payload)
  }

  /** The events of a read that has read its generation and is not served. */
  function MissCalls(id: nat, i: ReadInput): seq<Event> {
    if i.past || i.guardFails || i.queried.Err? then [Abandon(id)]
    else [Query(id, i.queried.value), if !i.isEmpty && i.put.up > 0 then Write(id) else Abandon(id)]
  }

  /** The events of reader id. */
  function ReadCalls(s: State, id: nat, timespan: string, i: ReadInput, decodes: string -> bool): seq<Event> {
    if !i.known || !i.enabled || !i.gen.Answers() then []
    else [ReadGeneration(id, timespan)]
         + if i.get.Answers() && Fits(s, timespan, decodes) then [Lookup(id)]
           else [if i.get.Answers() && (s.Gen(), timespan) !in s.answers then Lookup(id) else LookupFails(id)]
                + MissCalls(id, i)
  }

  /** The state in which reader id has read its generation and then missed the cache. */
  function Missing(s: State, id: nat, timespan: string): State {
    s.(readers := s.readers[id := Reader(timespan, s.Gen(), s.Life(), s.epoch, s.now, Missed)])
  }

  lemma {:induction false} MissShows(p: Params, db: Db, profileId: string, s: State, id: nat, i: ReadInput)
    requires p.Valid() && p.R == STATISTICS_READ_TTL && ColonFree(profileId) && Shows(db, profileId, s)
    requires id in s.readers && s.readers[id].phase == Missed && s.readers[id].readAt == s.now
    ensures Admissible(p, s, MissCalls(id, i))
    ensures Shows(if !i.past && !i.guardFails && i.queried.Ok? && !i.isEmpty && i.put.up > 0
                  then WriteEnd(db, profileId, s.readers[id].span, s.readers[id].gen, i.queried.value) else db,
                  profileId, Generations.Run(p, s, MissCalls(id, i)))
  {
    if i.past || i.guardFails || i.queried.Err? {
      RunOne(p, s, Abandon(id));
      ShowsSame(db, profileId, s, After(p, s, Abandon(id)));
    } else {
      var s1 := After(p, s, Query(id, i.queried.value));
      var e := if !i.isEmpty && i.put.up > 0 then Write(id) else Abandon(id);
      ShowsSame(db, profileId, s, s1);
      RunOne(p, s1, e);
      RunCons(p, s, Query(id, i.queried.value), [e]);
      assert [Query(id, i.queried.value)] + [e] == MissCalls(id, i);
      if e == Write(id) {
        ShowsWrite(p, db, profileId, s1, id);
      } else {
        ShowsSame(db, profileId, s1, After(p, s1, e));
      }
    }
  }

  /** What a read is served is the machine's hit. */
  lemma {:induction false} ServedIsHit(db: Db, profileId: string, s: State, timespan: string, i: ReadInput,
                                       decodes: string -> bool)
    requires Shows(db, profileId, s) && i.gen.Answers()
    ensures ReadGen(db, profileId, i) == Ok(s.Gen())
    ensures Served(db, profileId, timespan, i, decodes) ==
            if i.get.Answers() && Fits(s, timespan, decodes)
            then Some(s.answers[(s.Gen(), timespan)].payload) else None
  {
    ReadsAgree(db, profileId, s, s.Gen(), timespan);
  }

  lemma {:induction false} LookupRuns(p: Params, s: State, id: nat, timespan: string, i: ReadInput,
                                      decodes: string -> bool)
    requires id !in s.readers && i.known && i.enabled && i.gen.Answers()
    requires !(i.get.Answers() && Fits(s, timespan, decodes))
    requires Admissible(p, Missing(s, id, timespan), MissCalls(id, i))
    ensures Admissible(p, s, ReadCalls(s, id, timespan, i, decodes))
    ensures Generations.Run(p, s, ReadCalls(s, id, timespan, i, decodes)) ==
            Generations.Run(p, Missing(s, id, timespan), MissCalls(id, i))
  {
    var first := ReadGeneration(id, timespan);
    var second := if i.get.Answers() && (s.Gen(), timespan) !in s.answers then Lookup(id) else LookupFails(id);
    var s1 := After(p, s, first);
    assert After(p, s1, second).readers == Missing(s, id, timespan).readers;
    RunCons(p, s1, second, MissCalls(id, i));
    RunCons(p, s, first, [second] + MissCalls(id, i));
  }

  lemma {:induction false} HitRuns(p: Params, s: State, id: nat, timespan: string)
    requires id !in s.readers && (s.Gen(), timespan) in s.answers
    ensures var es := [ReadGeneration(id, timespan)] + [Lookup(id)];
            Admissible(p, s, es) && Generations.Run(p, s, es) == s
  {
    var s1 := After(p, s, ReadGeneration(id, timespan));
    RunOne(p, s1, Lookup(id));
    RunCons(p, s, ReadGeneration(id, timespan), [Lookup(id)]);
    assert After(p, s1, Lookup(id)).readers == s.readers;
  }

  /** A cached reply is the answer that the machine hits; every other reply is told apart. */
  lemma {:induction false} ReplyIsHit(db: Db, profileId: string, s: State, timespan: string, i: ReadInput,
                                      decodes: string -> bool)
    requires Shows(db, profileId, s)
    ensures ReadReply(db, profileId, timespan, i, decodes) ==
            if !i.known then Err
            else if !i.enabled then Ok(Blank)
            else if i.gen.up > 0 && i.gen.heard > 0 && i.get.up > 0 && i.get.heard > 0
                    && (s.Gen(), timespan) in s.answers && decodes(s.answers[(s.Gen(), timespan)].payload)
                 then Ok(Cached(s.answers[(s.Gen(), timespan)].payload))
            else if i.past then Ok(Blank)
            else if i.guardFails || i.queried.Err? then Err
            else Ok(Computed(i.queried.value))
  {
    if i.gen.Answers() {
      ServedIsHit(db, profileId, s, timespan, i, decodes);
    }
  }

  /** A read that is refused, or has nothing to query, neither queries nor writes; otherwise it queries once. */
  lemma {:induction false} QueriesIff(s: State, id: nat, timespan: string, i: ReadInput, decodes: string -> bool)
    requires i.known && i.enabled && i.gen.up > 0 && i.gen.heard > 0
    requires !(i.get.up > 0 && i.get.heard > 0 && (s.Gen(), timespan) in s.answers
               && decodes(s.answers[(s.Gen(), timespan)].payload))
    ensures (exists e :: e in ReadCalls(s, id, timespan, i, decodes) && e.Query?)
            <==> !i.past && !i.guardFails && i.queried.Ok?
    ensures (exists e :: e in ReadCalls(s, id, timespan, i, decodes) && e.Write?)
            <==> !i.past && !i.guardFails && i.queried.Ok? && !i.isEmpty && i.put.up > 0
  {
    var es := ReadCalls(s, id, timespan, i, decodes);
    assert es[2..] == MissCalls(id, i);
    if !i.past && !i.guardFails && i.queried.Ok? {
      assert es[2] == Query(id, i.queried.value) && es[3] in es && es[2] in es;
    } else {
      assert |es| == 3;
    }
  }

  lemma {:induction false} MissIsARun(p: Params, db: Db, profileId: string, s: State, id: nat, timespan: string,
                                      i: ReadInput, decodes: string -> bool)
    requires p.Valid() && p.R == STATISTICS_READ_TTL && ColonFree(profileId) && Shows(db, profileId, s)
    requires id !in s.readers && i.known && i.enabled && i.gen.Answers()
    requires !(i.get.Answers() && Fits(s, timespan, decodes))
    ensures Admissible(p, s, ReadCalls(s, id, timespan, i, decodes))
    ensures Shows(ReadEnd(db, profileId, timespan, i, decodes), profileId,
                  Generations.Run(p, s, ReadCalls(s, id, timespan, i, decodes)))
  {
    var missing := Missing(s, id, timespan);
    ServedIsHit(db, profileId, s, timespan, i, decodes);
    ShowsSame(db, profileId, s, missing);
    MissShows(p, db, profileId, missing, id, i);
    LookupRuns(p, s, id, timespan, i, decodes);
  }

  /**
   * A whole read by a new reader is a run of the protocol: what the keyspace shows afterwards is
   * the state after its events, whatever fails on the way.
   */
  lemma {:induction false} ReadIsARun(p: Params, db: Db, profileId: string, s: State, id: nat, timespan: string,
                                      i: ReadInput, decodes: string -> bool)
    requires p.Valid() && p.R == STATISTICS_READ_TTL && ColonFree(profileId) && Shows(db, profileId, s)
    requires id !in s.readers
    ensures Admissible(p, s, ReadCalls(s, id, timespan, i, decodes))
    ensures Shows(ReadEnd(db, profileId, timespan, i, decodes), profileId,
                  Generations.Run(p, s, ReadCalls(s, id, timespan, i, decodes)))
  {
    if i.known && i.enabled && i.gen.Answers() {
      if i.get.Answers() && Fits(s, timespan, decodes) {
        ServedIsHit(db, profileId, s, timespan, i, decodes);
        HitRuns(p, s, id, timespan);
      } else {
        MissIsARun(p, db, profileId, s, id, timespan, i, decodes);
      }
    }
  }
}
