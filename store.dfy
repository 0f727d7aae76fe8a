/**
 * The keyspace store the handlers lock and mutate.  Its implementation
 * (src/db/db.rs) is not part of this model: the state functions below are a
 * stand-in written to the store's documented behaviour, and every handler
 * property proved elsewhere relies only on their contracts, which say which
 * slot an operation may touch and, for `set_with_ttl`, what it stores.
 */
module Store {
  import opened Wrappers
  import Wire

  datatype Value =
    | Text(text: string)
    | List(items: seq<string>)
    | SortedSet(scores: map<string, nat>)

  /** A key's value and its absolute expiry in milliseconds; `NoExpiry` means none. */
  datatype Entry = Entry(value: Value, expireAt: int)

  const NoExpiry: int := -1

  /** A key inside one of the numbered databases. */
  type Slot = (nat, string)

  type State = map<Slot, Entry>

  const WrongTypeMessage: string := "WRONGTYPE Operation against a key holding the wrong kind of value"

  predicate Expired(e: Entry, now: int) {
    e.expireAt != NoExpiry && e.expireAt <= now
  }

  /** `check_ttl`: the key is dropped exactly when it has expired by `now`; nothing else changes. */
  function AfterCheckTtl(st: State, db: nat, key: string, now: int): (r: State)
    ensures (db, key) in r <==> (db, key) in st && !Expired(st[(db, key)], now)
    ensures forall s :: s in r ==> s in st && r[s] == st[s]
    ensures forall s :: s in st && s != (db, key) ==> s in r
  {
    if (db, key) in st && Expired(st[(db, key)], now) then st - {(db, key)} else st
  }

  /** `set_with_ttl`: the key holds the text and expiry given; every other key is untouched. */
  function AfterSetWithTtl(st: State, db: nat, key: string, value: string, expireAt: int): (r: State)
    ensures (db, key) in r && r[(db, key)] == Entry(Text(value), expireAt)
    ensures forall s :: s != (db, key) ==> (s in r <==> s in st) && (s in r ==> r[s] == st[s])
  {
    st[(db, key) := Entry(Text(value), expireAt)]
  }

  /** `lpush`: each value goes to the head in turn; a key of another type is left alone. */
  function AfterLpush(st: State, db: nat, key: string, values: seq<string>): (r: State)
    ensures forall s :: s != (db, key) ==> (s in r <==> s in st) && (s in r ==> r[s] == st[s])
  {
    if (db, key) !in st then st[(db, key) := Entry(List(Reversed(values)), NoExpiry)]
    else match st[(db, key)].value
      case List(items) => st[(db, key) := st[(db, key)].(value := List(Reversed(values) + items))]
      case _ => st
  }

  function Reversed(s: seq<string>): (r: seq<string>)
    ensures |r| == |s|
  {
    if s == [] then [] else Reversed(s[1..]) + [s[0]]
  }

  /**
   * `zadd`: sets the member's score and counts it if it is new; a key of
   * another type fails and is left alone.
   */
  function AfterZadd(st: State, db: nat, key: string, member: string, score: nat): (r: (State, Result<nat>))
    ensures forall s :: s != (db, key) ==> (s in r.0 <==> s in st) && (s in r.0 ==> r.0[s] == st[s])
    ensures r.1.Failure? ==> r.0 == st
    ensures r.1.Success? ==> r.1.value <= Wire.UsizeMax
  {
    if (db, key) !in st then (st[(db, key) := Entry(SortedSet(map[member := score]), NoExpiry)], Success(1))
    else match st[(db, key)].value
      case SortedSet(scores) =>
        var added := if member in scores then 0 else 1;
        (st[(db, key) := st[(db, key)].(value := SortedSet(scores[member := score]))], Success(added))
      case _ => (st, Failure(WrongTypeMessage))
  }

  /** The store, locked once per command and changed in place by the handlers. */
  class Db {
    var entries: State

    constructor ()
      ensures entries == map[]
    {
      entries := map[];
    }

    /** `exists`, taken to be a plain membership test that does not look at the expiry. */
    function Exists(db: nat, key: string): (b: bool)
      reads this
      ensures b <==> (db, key) in entries
    {
      (db, key) in entries
    }

    method SetWithTtl(db: nat, key: string, value: string, expireAt: int)
      modifies this
      ensures entries == AfterSetWithTtl(old(entries), db, key, value, expireAt)
    {
      entries := AfterSetWithTtl(entries, db, key, value, expireAt);
    }

    method CheckTtl(db: nat, key: string, now: int)
      modifies this
      ensures entries == AfterCheckTtl(old(entries), db, key, now)
    {
      entries := AfterCheckTtl(entries, db, key, now);
    }

    method Lpush(db: nat, key: string, values: seq<string>)
      modifies this
      ensures entries == AfterLpush(old(entries), db, key, values)
    {
      entries := AfterLpush(entries, db, key, values);
    }

    method Zadd(db: nat, key: string, member: string, score: nat) returns (r: Result<nat>)
      modifies this
      ensures (entries, r) == AfterZadd(old(entries), db, key, member, score)
    {
      var after := AfterZadd(entries, db, key, member, score);
      entries, r := after.0, after.1;
    }
  }
}
