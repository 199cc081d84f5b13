/**
 * The shared Redis server: a keyspace, a clock and atomic commands.
 *
 * Keys whose deadline has passed are dropped when the clock moves, so every stored key is live
 * and no command needs to look at deadlines. A command that meets a value of the wrong type (or
 * is given no elements) replies with an error and changes nothing. A collection that becomes
 * empty is removed together with its key.
 */
module Redis {
  import opened Wrappers
  import opened Text

  datatype Value =
    | Str(text: string)
    | List(items: seq<string>)
    | Members(elems: set<string>)
    | Hash(fields: map<string, string>)

  datatype Db = Db(now: nat, keys: map<string, Value>, deadlines: map<string, nat>) {
    function Peek(k: string): Option<Value> {
      if k in keys then Some(keys[k]) else None
    }

    /** Rewrites a key in place: its deadline stays. */
    function Put(k: string, v: Value): Db {
      Db(now, keys[k := v], deadlines)
    }

    function Drop(ks: set<string>): Db {
      Db(now, keys - ks, deadlines - ks)
    }

    /** Stores v, or removes the key when there is nothing to store. */
    function PutOrDrop(k: string, v: Option<Value>): Db {
      match v
      case None => Drop({k})
      case Some(w) => Put(k, w)
    }

    /** The elements of the list at k, which is empty when k is absent. */
    function Items(k: string): seq<string> {
      if k in keys && keys[k].List? then keys[k].items else []
    }

    function Elems(k: string): set<string> {
      if k in keys && keys[k].Members? then keys[k].elems else {}
    }

    /** HGETALL: no fields when k is absent. */
    function Fields(k: string): map<string, string> {
      if k in keys && keys[k].Hash? then keys[k].fields else map[]
    }

    /** The integer INCR would read at k: 0 when absent, None when not a canonical int64. */
    function Counter(k: string): Option<int> {
      match Peek(k)
      case None => Some(0)
      case Some(Str(t)) =>
        (match ParseInt(t)
         case Some(n) => if FormatInt(n) == t then Some(n) else None
         case None => None)
      case Some(_) => None
    }
  }

  /** How each kind of collection is stored: not at all when empty. */
  function OfList(items: seq<string>): Option<Value> {
    if items == [] then None else Some(List(items))
  }

  function OfSet(elems: set<string>): Option<Value> {
    if elems == {} then None else Some(Members(elems))
  }

  function OfHash(fields: map<string, string>): Option<Value> {
    if fields == map[] then None else Some(Hash(fields))
  }

  datatype Cmd =
    | Set(key: string, text: string, ttl: nat)
    | Incr(key: string)
    | Expire(key: string, ttl: nat)
    | Del(names: seq<string>)
    | RPush(key: string, values: seq<string>)
    | LRem(key: string, value: string)
    | SAdd(key: string, values: seq<string>)
    | SRem(key: string, values: seq<string>)
    | HSet(key: string, fields: map<string, string>)

  function Without(items: seq<string>, x: string): seq<string> {
    if items == [] then []
    else (if items[0] == x then [] else [items[0]]) + Without(items[1..], x)
  }

  function Elements(values: seq<string>): set<string> {
    set v | v in values
  }

  /** Does the command reply with an error? */
  predicate Fails(db: Db, c: Cmd) {
    match c
    case Set(_, _, _) => false
    case Incr(k) => var n := db.Counter(k); n.None? || n.value == MAX_INT64
    case Expire(_, _) => false
    case Del(ks) => ks == []
    case RPush(k, vs) => vs == [] || (k in db.keys && !db.keys[k].List?)
    case LRem(k, _) => k in db.keys && !db.keys[k].List?
    case SAdd(k, vs) => vs == [] || (k in db.keys && !db.keys[k].Members?)
    case SRem(k, vs) => vs == [] || (k in db.keys && !db.keys[k].Members?)
    case HSet(k, fs) => fs == map[] || (k in db.keys && !db.keys[k].Hash?)
  }

  /** One atomic command. A ttl of 0 in Set means no deadline. */
  function Apply(db: Db, c: Cmd): Db {
    if Fails(db, c) then db
    else match c
      case Set(k, t, ttl) =>
        Db(db.now, db.keys[k := Str(t)],
           if ttl == 0 then db.deadlines - {k} else db.deadlines[k := db.now + ttl])
      case Incr(k) => db.Put(k, Str(FormatInt(db.Counter(k).value + 1)))
      case Expire(k, ttl) =>
        if k !in db.keys then db
        else if ttl == 0 then db.Drop({k})
        else Db(db.now, db.keys, db.deadlines[k := db.now + ttl])
      case Del(ks) => db.Drop(Elements(ks))
      case RPush(k, vs) => db.Put(k, List(db.Items(k) + vs))
      case LRem(k, v) => db.PutOrDrop(k, OfList(Without(db.Items(k), v)))
      case SAdd(k, vs) => db.Put(k, Members(db.Elems(k) + Elements(vs)))
      case SRem(k, vs) => db.PutOrDrop(k, OfSet(db.Elems(k) - Elements(vs)))
      case HSet(k, fs) => db.Put(k, Hash(db.Fields(k) + fs))
  }

  /** The clock reaches t: every key whose deadline has come is gone. */
  function Advance(db: Db, t: nat): Db {
    var gone := set k | k in db.deadlines && db.deadlines[k] <= t;
    Db(t, db.keys - gone, db.deadlines - gone)
  }

  /** The keys a command may write. */
  function Written(c: Cmd): set<string> {
    match c
    case Del(ks) => Elements(ks)
    case _ => {c.key}
  }

  lemma {:induction false} Frame(db: Db, c: Cmd, k: string)
    requires k !in Written(c)
    ensures Apply(db, c).Peek(k) == db.Peek(k)
    ensures k in Apply(db, c).deadlines <==> k in db.deadlines
    ensures k in db.deadlines ==> Apply(db, c).deadlines[k] == db.deadlines[k]
  {
  }

  /** The state after a pipeline whose commands all reached the server. */
  function Run(db: Db, cs: seq<Cmd>): Db
    decreases |cs|
  {
    if cs == [] then db else Run(Apply(db, cs[0]), cs[1..])
  }

  /** Does some command of the pipeline reply with an error? */
  predicate AnyFails(db: Db, cs: seq<Cmd>)
    decreases |cs|
  {
    cs != [] && (Fails(db, cs[0]) || AnyFails(Apply(db, cs[0]), cs[1..]))
  }

  lemma {:induction false} RunSplit(db: Db, a: seq<Cmd>, b: seq<Cmd>)
    ensures Run(db, a + b) == Run(Run(db, a), b)
    decreases |a|
  {
    if a == [] {
      assert a + b == b;
    } else {
      assert (a + b)[1..] == a[1..] + b;
      RunSplit(Apply(db, a[0]), a[1..], b);
    }
  }

  lemma {:induction false} AnyFailsSplit(db: Db, a: seq<Cmd>, b: seq<Cmd>)
    ensures AnyFails(db, a + b) <==> AnyFails(db, a) || AnyFails(Run(db, a), b)
    decreases |a|
  {
    if a == [] {
      assert a + b == b;
    } else {
      assert (a + b)[1..] == a[1..] + b;
      AnyFailsSplit(Apply(db, a[0]), a[1..], b);
    }
  }

  /** One command more, seen from the front and from the whole. */
  lemma {:induction false} AnyFailsStep(db: Db, cs: seq<Cmd>, i: nat)
    requires i < |cs|
    ensures AnyFails(db, cs[..i + 1]) <==> AnyFails(db, cs[..i]) || Fails(Run(db, cs[..i]), cs[i])
    ensures AnyFails(db, cs[..i + 1]) ==> AnyFails(db, cs)
  {
    var mid := Run(db, cs[..i]);
    assert cs[..i + 1] == cs[..i] + [cs[i]] && cs == cs[..i + 1] + cs[i + 1..];
    AnyFailsSplit(db, cs[..i], [cs[i]]);
    AnyFailsSplit(db, cs[..i + 1], cs[i + 1..]);
    assert AnyFails(mid, [cs[i]]) <==> Fails(mid, cs[i]);
  }

  lemma {:induction false} RunStep(db: Db, cs: seq<Cmd>, i: nat)
    requires i < |cs|
    ensures Run(db, cs[..i + 1]) == Apply(Run(db, cs[..i]), cs[i])
  {
    assert cs[..i + 1] == cs[..i] + [cs[i]];
    RunSplit(db, cs[..i], [cs[i]]);
    var mid := Run(db, cs[..i]);
    assert Run(mid, [cs[i]]) == Apply(mid, cs[i]);
  }

  lemma {:induction false} RunFrame(db: Db, cs: seq<Cmd>, k: string)
    requires forall c :: c in cs ==> k !in Written(c)
    ensures Run(db, cs).Peek(k) == db.Peek(k)
    decreases |cs|
  {
    if cs != [] {
      Frame(db, cs[0], k);
      RunFrame(Apply(db, cs[0]), cs[1..], k);
    }
  }

  /** The commands of a pipeline that reach the server when the connection carries up of them. */
  function Delivered(cs: seq<Cmd>, up: nat): seq<Cmd> {
    if up < |cs| then cs[..up] else cs
  }

  lemma {:induction false} WithoutMembers(items: seq<string>, x: string)
    ensures forall y :: y in Without(items, x) <==> y in items && y != x
  {
    if items != [] {
      WithoutMembers(items[1..], x);
    }
  }
}
