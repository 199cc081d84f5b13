/** WebAuthn ceremonies: each saved one is consumed at most once, and not after its expiration. */
module Ceremonies {
  import opened Wrappers
  import opened Redis
  import opened Keys

  /** GETDEL: what is stored under the token's key goes, and comes back when it decodes. */
  function Taken(db: Db, token: string): Db {
    match db.Peek(CeremonyKey(token))
    case Some(Str(_)) => db.Drop({CeremonyKey(token)})
    case _ => db
  }

  function TakenValue(db: Db, token: string, decodes: string -> bool): Result<string> {
    match db.Peek(CeremonyKey(token))
    case Some(Str(data)) => if decodes(data) then Ok(data) else Err
    case _ => Err
  }

  /**
   * What reaches the server: ceremony commands of any clients in any order, time passing, and any
   * other traffic. A consumer whose reply is lost has reached the server all the same.
   */
  datatype Event =
    | Save(token: string, data: string, ttl: nat)
    | Consume(token: string, lost: bool)
    | Tick(span: nat)
    | Other(cmd: Cmd)

  ghost predicate Foreign(c: Cmd) {
    forall token :: CeremonyKey(token) !in Written(c)
  }

  ghost predicate Admissible(es: seq<Event>) {
    forall e :: e in es && e.Other? ==> Foreign(e.cmd)
  }

  function After(db: Db, e: Event): Db {
    match e
    case Save(token, data, ttl) => Apply(db, Set(CeremonyKey(token), data, ttl))
    case Consume(token, _) => Taken(db, token)
    case Tick(d) => Advance(db, db.now + d)
    case Other(c) => Apply(db, c)
  }

  function Before(es: seq<Event>): (r: seq<Event>)
    requires es != []
    ensures |r| == |es| - 1
  {
    es[..|es| - 1]
  }

  function Last(es: seq<Event>): Event
    requires es != []
  {
    es[|es| - 1]
  }

  function History(db: Db, es: seq<Event>): Db
    decreases |es|
  {
    if es == [] then db else After(History(db, Before(es)), Last(es))
  }

  // ------------------------------------------------------------------ what a token stands for

  /** The time that passes in a history. */
  function Elapsed(es: seq<Event>): nat {
    if es == [] then 0 else Elapsed(Before(es)) + if Last(es).Tick? then Last(es).span else 0
  }

  predicate Concerns(e: Event, token: string) {
    (e.Save? || e.Consume?) && e.token == token
  }

  /** Event i is the last save of the token, nobody has consumed it since, and it has not expired. */
  predicate Offers(es: seq<Event>, i: nat, token: string) {
    && i < |es| && es[i].Save? && es[i].token == token
    && (forall j :: i < j < |es| ==> !Concerns(es[j], token))
    && (es[i].ttl > 0 ==> Elapsed(es) < Elapsed(es[..i]) + es[i].ttl)
  }

  /** The key of a token holds exactly the ceremony on offer, with its deadline. */
  ghost predicate Holds(db: Db, start: nat, es: seq<Event>, i: nat, token: string) {
    && i < |es| && es[i].Save?
    && db.Peek(CeremonyKey(token)) == Some(Str(es[i].data))
    && (CeremonyKey(token) in db.deadlines <==> es[i].ttl > 0)
    && (es[i].ttl > 0 ==> db.deadlines[CeremonyKey(token)] == start + Elapsed(es[..i]) + es[i].ttl)
  }

  ghost predicate Tracked(db: Db, start: nat, es: seq<Event>, token: string) {
    && (forall i: nat :: Offers(es, i, token) ==> Holds(db, start, es, i, token))
    && (CeremonyKey(token) in db.keys ==> exists i: nat :: Offers(es, i, token))
    && (CeremonyKey(token) in db.deadlines ==> CeremonyKey(token) in db.keys)
  }

  ghost predicate NoCeremonies(db: Db) {
    forall token :: CeremonyKey(token) !in db.keys && CeremonyKey(token) !in db.deadlines
  }

  lemma {:induction false} ClockOf(db: Db, es: seq<Event>)
    ensures History(db, es).now == db.now + Elapsed(es)
    decreases |es|
  {
    if es != [] {
      ClockOf(db, Before(es));
    }
  }

  lemma {:induction false} TokensDiffer(a: string, b: string)
    requires a != b
    ensures CeremonyKey(a) != CeremonyKey(b)
  {
    if CeremonyKey(a) == CeremonyKey(b) {
      CancelPrefix("webauthn_ceremony:", a, b);
    }
  }

  /** Nothing changes for a token when an event neither concerns it nor lets time pass. */
  lemma {:induction false} Untouched(db: Db, e: Event, token: string)
    requires !Concerns(e, token) && !e.Tick? && (e.Other? ==> Foreign(e.cmd))
    ensures After(db, e).Peek(CeremonyKey(token)) == db.Peek(CeremonyKey(token))
    ensures CeremonyKey(token) in After(db, e).deadlines <==> CeremonyKey(token) in db.deadlines
    ensures CeremonyKey(token) in db.deadlines ==>
              After(db, e).deadlines[CeremonyKey(token)] == db.deadlines[CeremonyKey(token)]
  {
    match e
    case Save(t, data, ttl) =>
      TokensDiffer(t, token);
      Frame(db, Set(CeremonyKey(t), data, ttl), CeremonyKey(token));
    case Consume(t, _) => TokensDiffer(t, token);
    case Other(c) => Frame(db, c, CeremonyKey(token));
  }

  /** An offer outlives an event that does not concern it, unless its time comes. */
  lemma {:induction false} OfferStays(es: seq<Event>, i: nat, token: string)
    requires es != [] && !Concerns(Last(es), token)
    ensures Offers(es, i, token) <==>
              Offers(Before(es), i, token) && (es[i].ttl > 0 ==> Elapsed(es) < Elapsed(es[..i]) + es[i].ttl)
  {
    var b := Before(es);
    if i < |b| {
      assert b[..i] == es[..i] && b[i] == es[i];
      if Offers(b, i, token) {
        forall j | i < j < |es| ensures !Concerns(es[j], token) {
          assert j < |b| ==> es[j] == b[j];
        }
      }
    }
  }

  lemma {:induction false} TrackedAlways(db: Db, es: seq<Event>, token: string)
    requires NoCeremonies(db) && Admissible(es)
    ensures Tracked(History(db, es), db.now, es, token)
    decreases |es|
  {
    if es != [] {
      var b, e := Before(es), Last(es);
      assert forall x :: x in b ==> x in es;
      TrackedAlways(db, b, token);
      ClockOf(db, b);
      if Concerns(e, token) {
        ConcernedStep(History(db, b), db.now, es, token);
      } else {
        UnconcernedStep(History(db, b), db.now, es, token);
      }
    }
  }

  lemma {:induction false} ConcernedStep(db: Db, start: nat, es: seq<Event>, token: string)
    requires es != [] && Concerns(Last(es), token) && Tracked(db, start, Before(es), token)
    requires db.now == start + Elapsed(Before(es))
    ensures Tracked(After(db, Last(es)), start, es, token)
  {
    assert Concerns(es[|es| - 1], token);
    assert forall i: nat :: Offers(es, i, token) ==> i == |es| - 1;
    if Last(es).Save? {
      assert es[..|es| - 1] == Before(es);
      assert Offers(es, |es| - 1, token);
    } else {
      assert forall i: nat :: Offers(Before(es), i, token) ==> Holds(db, start, Before(es), i, token);
    }
  }

  lemma {:induction false} UnconcernedStep(db: Db, start: nat, es: seq<Event>, token: string)
    requires es != [] && !Concerns(Last(es), token) && Tracked(db, start, Before(es), token)
    requires Last(es).Other? ==> Foreign(Last(es).cmd)
    requires db.now == start + Elapsed(Before(es))
    ensures Tracked(After(db, Last(es)), start, es, token)
  {
    var b, e, db' := Before(es), Last(es), After(db, Last(es));
    if !e.Tick? {
      Untouched(db, e, token);
    }
    forall i: nat | Offers(es, i, token) ensures Holds(db', start, es, i, token) {
      OfferStays(es, i, token);
      assert Holds(db, start, b, i, token) && b[..i] == es[..i];
    }
    if CeremonyKey(token) in db'.keys {
      var i: nat :| Offers(b, i, token);
      assert Holds(db, start, b, i, token) && b[..i] == es[..i];
      OfferStays(es, i, token);
      LiveOffer(b, i, token);
      assert Offers(es, i, token);
    }
  }

  lemma {:induction false} LiveOffer(es: seq<Event>, i: nat, token: string)
    requires Offers(es, i, token)
    ensures es[i].ttl > 0 ==> Elapsed(es) < Elapsed(es[..i]) + es[i].ttl
  {
  }

  /**
   * After any history, a token can be consumed exactly when its last save has neither been
   * consumed nor expired since, and its data decodes; the consumer gets the data of that save.
   */
  lemma {:induction false} ConsumeSucceedsIff(db: Db, es: seq<Event>, token: string, decodes: string -> bool,
                                              data: string)
    requires NoCeremonies(db) && Admissible(es)
    ensures TakenValue(History(db, es), token, decodes) == Ok(data) <==>
              decodes(data) && exists i: nat :: Offers(es, i, token) && es[i].data == data
  {
    TrackedAlways(db, es, token);
    var end := History(db, es);
    if CeremonyKey(token) in end.keys {
      var i: nat :| Offers(es, i, token);
      assert Holds(end, db.now, es, i, token);
    }
    forall i: nat | Offers(es, i, token) ensures end.Peek(CeremonyKey(token)) == Some(Str(es[i].data)) {
      assert Holds(end, db.now, es, i, token);
    }
  }

  // ------------------------------------------------------------------ single use

  function Saves(es: seq<Event>, token: string): nat {
    if es == [] then 0 else Saves(Before(es), token) + if Last(es).Save? && Last(es).token == token then 1 else 0
  }

  predicate Succeeds(db: Db, e: Event, token: string, decodes: string -> bool) {
    e.Consume? && e.token == token && !e.lost && TakenValue(db, token, decodes).Ok?
  }

  function Successes(db: Db, es: seq<Event>, token: string, decodes: string -> bool): nat {
    if es == [] then 0
    else Successes(db, Before(es), token, decodes)
         + if Succeeds(History(db, Before(es)), Last(es), token, decodes) then 1 else 0
  }

  /**
   * In every history the successful consumes of a token, and the ceremony still stored if there
   * is one, never outnumber its saves.
   */
  lemma {:induction false} SingleUse(db: Db, es: seq<Event>, token: string, decodes: string -> bool)
    requires NoCeremonies(db) && Admissible(es)
    ensures Successes(db, es, token, decodes) + (if CeremonyKey(token) in History(db, es).keys then 1 else 0)
            <= Saves(es, token)
    decreases |es|
  {
    if es != [] {
      var b, e := Before(es), Last(es);
      assert forall x :: x in b ==> x in es;
      SingleUse(db, b, token, decodes);
      if !Concerns(e, token) && !e.Tick? {
        Untouched(History(db, b), e, token);
      }
    }
  }

  /**
   * A consume spends the ceremony whatever becomes of it: undecodable data and a lost reply too.
   * Without another save no later consume of the token succeeds.
   */
  lemma {:induction false} SpentForGood(db: Db, es: seq<Event>, n: nat, token: string, decodes: string -> bool)
    requires NoCeremonies(db) && Admissible(es)
    requires n < |es| && es[n].Consume? && es[n].token == token
    requires forall j :: n < j < |es| ==> !(es[j].Save? && es[j].token == token)
    ensures TakenValue(History(db, es), token, decodes) == Err
  {
    TrackedAlways(db, es, token);
    if CeremonyKey(token) in History(db, es).keys {
      var i: nat :| Offers(es, i, token);
      assert Concerns(es[n], token);
      assert false;
    }
  }
}
