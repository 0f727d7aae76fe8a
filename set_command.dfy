/**
 * `SET key value [NX|XX] [EX seconds|PX milliseconds]` (src/command/string/set.rs).
 *
 * Fragments follow the request framing: the key is fragment 4, the value
 * fragment 6, and any other fragment may be a modifier.
 */
module SetCommand {
  import opened Wrappers
  import opened Wire
  import opened Store
  import opened Command

  const ArityMessage: string := "ERR wrong number of arguments for 'set' command"

  /** Fragment `i` spells `flag` in any case and is neither the key nor the value. */
  predicate GuardAt(fragments: seq<string>, i: int, flag: string) {
    0 <= i < |fragments| && i != 4 && i != 6 && Upper(fragments[i]) == flag
  }

  predicate HasGuard(fragments: seq<string>, flag: string) {
    exists i | 0 <= i < |fragments| :: GuardAt(fragments, i, flag)
  }

  predicate IsTtlFlag(f: string) {
    Upper(f) == "EX" || Upper(f) == "PX"
  }

  /** The highest index above 6 whose fragment is `EX` or `PX`, if there is one. */
  function LastTtlFlag(fragments: seq<string>): (r: Option<nat>)
    ensures r.Some? ==> 6 < r.value < |fragments| && IsTtlFlag(fragments[r.value])
    ensures r.Some? ==> forall j :: r.value < j < |fragments| ==> !IsTtlFlag(fragments[j])
    ensures r.None? ==> forall j :: 6 < j < |fragments| ==> !IsTtlFlag(fragments[j])
  {
    if |fragments| <= 7 then None
    else if IsTtlFlag(fragments[|fragments| - 1]) then Some(|fragments| - 1)
    else LastTtlFlag(fragments[..|fragments| - 1])
  }

  /** A TTL in the unit of the flag, in milliseconds (anything but `EX` counts as `PX`). */
  function TtlMillis(unit: string, ttl: int): (ms: int)
    ensures unit != "EX" ==> ms == ttl
  {
    if unit == "EX" then ttl * 1000 else ttl
  }

  /**
   * The absolute expiry SET stores: `now` plus the TTL that follows the last
   * EX/PX flag, or `NoExpiry` when there is no flag or its TTL is missing or
   * is not an `i64`.
   */
  function ExpireAt(fragments: seq<string>, now: int): (expireAt: int)
    ensures LastTtlFlag(fragments).None? ==> expireAt == NoExpiry
  {
    match LastTtlFlag(fragments)
    case None => NoExpiry
    case Some(k) =>
      if k + 2 < |fragments| && ParseI64(fragments[k + 2]).Some? then
        now + TtlMillis(Upper(fragments[k]), ParseI64(fragments[k + 2]).value)
      else NoExpiry
  }

  /** What SET does to the store and which reply it sends. */
  ghost function Effect(st: State, sessions: Sessions, sessionId: string, fragments: seq<string>,
                        stream: bool, now: int): (outcome: Outcome)
  {
    if sessionId !in sessions then Outcome(st, None)
    else if |fragments| <= 6 then Outcome(st, Respond(stream, Error(ArityMessage)))
    else
      var db := sessions[sessionId].selectedDatabase;
      var key := fragments[4];
      if stream && (db, key) in st && HasGuard(fragments, "NX") then Outcome(st, Some(Null))
      else if stream && (db, key) !in st && HasGuard(fragments, "XX") then Outcome(st, Some(Null))
      else Outcome(AfterSetWithTtl(st, db, key, fragments[6], ExpireAt(fragments, now)), Respond(stream, Ok))
  }

  /** The reverse scan for the TTL flag, stopping at the first hit from the end. */
  method FindTtlFlag(fragments: seq<string>) returns (ttlIndex: Option<nat>)
    ensures ttlIndex == LastTtlFlag(fragments)
  {
    ttlIndex := None;
    var index := |fragments|;
    while index > 0
      invariant 0 <= index <= |fragments|
      invariant ttlIndex == None
      invariant LastTtlFlag(fragments) == LastTtlFlag(fragments[..index])
    {
      index := index - 1;
      if index > 6 && IsTtlFlag(fragments[index]) {
        assert fragments[..index + 1][..index] == fragments[..index];
        ttlIndex := Some(index);
        break;
      }
      assert fragments[..index + 1][..index] == fragments[..index];
    }
    assert fragments[..|fragments|] == fragments;
  }

  method Execute(db: Db, sessions: Sessions, sessionId: string, fragments: seq<string>,
                 stream: bool, now: int) returns (reply: Option<Reply>)
    modifies db
    ensures Outcome(db.entries, reply) == Effect(old(db.entries), sessions, sessionId, fragments, stream, now)
  {
    if sessionId !in sessions {
      return None;
    }
    var dbIndex := sessions[sessionId].selectedDatabase;
    if |fragments| <= 4 {
      return Respond(stream, Error(ArityMessage));
    }
    var key := fragments[4];
    if |fragments| <= 6 {
      return Respond(stream, Error(ArityMessage));
    }
    var value := fragments[6];

    // NX: abort if the key already exists
    for index := 0 to |fragments|
      invariant db.entries == old(db.entries)
      invariant !(stream && (dbIndex, key) in db.entries && exists j | 0 <= j < index :: GuardAt(fragments, j, "NX"))
    {
      if Upper(fragments[index]) == "NX" {
        if index != 4 && index != 6 {
          var isExists := db.Exists(dbIndex, key);
          if isExists {
            if stream {
              assert GuardAt(fragments, index, "NX");
              return Some(Null);
            }
          }
        }
      }
    }
    // XX: abort if the key does not exist
    for index := 0 to |fragments|
      invariant db.entries == old(db.entries)
      invariant !(stream && (dbIndex, key) !in db.entries && exists j | 0 <= j < index :: GuardAt(fragments, j, "XX"))
    {
      if Upper(fragments[index]) == "XX" {
        if index != 4 && index != 6 {
          var isExists := db.Exists(dbIndex, key);
          if !isExists {
            if stream {
              assert GuardAt(fragments, index, "XX");
              return Some(Null);
            }
          }
        }
      }
    }

    var ttlIndex := FindTtlFlag(fragments);
    var expireAt := NoExpiry;
    if ttlIndex.Some? {
      var k := ttlIndex.value;
      if k + 2 < |fragments| {
        var ttl := ParseI64(fragments[k + 2]);
        if ttl.Some? {
          expireAt := now + TtlMillis(Upper(fragments[k]), ttl.value);
        }
      }
    }
    db.SetWithTtl(dbIndex, key, value, expireAt);
    reply := Respond(stream, Ok);
  }

  function CommandKind(): (t: CommandType)
    ensures t == Write
  {
    Write
  }

  // ---- Properties of SET ----

  lemma UnknownSessionIsIgnored(st: State, sessions: Sessions, sessionId: string, fragments: seq<string>,
                                stream: bool, now: int)
    requires sessionId !in sessions
    ensures Effect(st, sessions, sessionId, fragments, stream, now) == Outcome(st, None)
  {
  }

  lemma MissingArgumentIsArityError(st: State, sessions: Sessions, sessionId: string, fragments: seq<string>,
                                    stream: bool, now: int)
    requires sessionId in sessions && |fragments| <= 6
    ensures Effect(st, sessions, sessionId, fragments, stream, now).store == st
    ensures Effect(st, sessions, sessionId, fragments, stream, now).reply
      == if stream then Some(Error("ERR wrong number of arguments for 'set' command")) else None
  {
  }

  /** With a reply stream, an NX modifier on an existing key answers Null and stores nothing. */
  lemma NxOnExistingKeyAborts(st: State, sessions: Sessions, sessionId: string, fragments: seq<string>,
                              now: int, i: int)
    requires sessionId in sessions && |fragments| > 6
    requires GuardAt(fragments, i, "NX")
    requires (sessions[sessionId].selectedDatabase, fragments[4]) in st
    ensures Effect(st, sessions, sessionId, fragments, true, now) == Outcome(st, Some(Null))
  {
  }

  /** With a reply stream, an XX modifier on a missing key answers Null and stores nothing. */
  lemma XxOnMissingKeyAborts(st: State, sessions: Sessions, sessionId: string, fragments: seq<string>,
                             now: int, i: int)
    requires sessionId in sessions && |fragments| > 6
    requires GuardAt(fragments, i, "XX")
    requires (sessions[sessionId].selectedDatabase, fragments[4]) !in st
    ensures Effect(st, sessions, sessionId, fragments, true, now) == Outcome(st, Some(Null))
  {
  }

  /**
   * Without a reply stream (log replay) NX and XX never abort: the value is
   * stored with its expiry, whatever the key's presence, and nothing is sent.
   */
  lemma ReplayAlwaysStores(st: State, sessions: Sessions, sessionId: string, fragments: seq<string>, now: int)
    requires sessionId in sessions && |fragments| > 6
    ensures var o := Effect(st, sessions, sessionId, fragments, false, now);
      var slot := (sessions[sessionId].selectedDatabase, fragments[4]);
      o.reply == None && slot in o.store && o.store[slot] == Entry(Text(fragments[6]), ExpireAt(fragments, now))
  {
  }

  /**
   * When no guard aborts, the key holds the value and its expiry in the
   * session's database, every other key is untouched, and the reply is Ok.
   */
  lemma StoresWhenGuardsPass(st: State, sessions: Sessions, sessionId: string, fragments: seq<string>,
                             stream: bool, now: int)
    requires sessionId in sessions && |fragments| > 6
    requires var slot := (sessions[sessionId].selectedDatabase, fragments[4]);
      !(stream && slot in st && HasGuard(fragments, "NX")) && !(stream && slot !in st && HasGuard(fragments, "XX"))
    ensures var o := Effect(st, sessions, sessionId, fragments, stream, now);
      var slot := (sessions[sessionId].selectedDatabase, fragments[4]);
      && o.reply == (if stream then Some(Ok) else None)
      && slot in o.store && o.store[slot] == Entry(Text(fragments[6]), ExpireAt(fragments, now))
      && forall s :: s != slot ==> (s in o.store <==> s in st) && (s in st ==> o.store[s] == st[s])
  {
  }

  /**
   * The expiry comes from the last EX/PX flag above index 6 alone: an
   * earlier flag is ignored even when the last one's TTL is unusable.
   */
  lemma TtlFromLastFlag(fragments: seq<string>, now: int, k: nat)
    requires 6 < k < |fragments| && IsTtlFlag(fragments[k])
    requires forall j :: k < j < |fragments| ==> !IsTtlFlag(fragments[j])
    ensures ExpireAt(fragments, now) ==
      if k + 2 < |fragments| && ParseI64(fragments[k + 2]).Some? then
        now + (if Upper(fragments[k]) == "EX" then ParseI64(fragments[k + 2]).value * 1000
               else ParseI64(fragments[k + 2]).value)
      else NoExpiry
  {
  }

  lemma NoTtlFlagMeansNoExpiry(fragments: seq<string>, now: int)
    requires forall j :: 6 < j < |fragments| ==> !IsTtlFlag(fragments[j])
    ensures ExpireAt(fragments, now) == NoExpiry
  {
  }

  /** `SET k v EX 10` as framed on the wire expires at `now + 10000`. */
  lemma ExSecondsExample(now: int)
    ensures ExpireAt(["*5", "$3", "SET", "$1", "k", "$1", "v", "$2", "EX", "$2", "10", ""], now) == now + 10000
  {
    var f := ["*5", "$3", "SET", "$1", "k", "$1", "v", "$2", "EX", "$2", "10", ""];
    assert Upper("EX") == "EX";
    FramingIsNoTtlFlag(f);
    TenParses();
    TtlFromLastFlag(f, now, 8);
  }

  /** `SET k v px 10` (any case) expires at `now + 10`. */
  lemma PxMillisExample(now: int)
    ensures ExpireAt(["*5", "$3", "SET", "$1", "k", "$1", "v", "$2", "px", "$2", "10", ""], now) == now + 10
  {
    var f := ["*5", "$3", "SET", "$1", "k", "$1", "v", "$2", "px", "$2", "10", ""];
    assert Upper("px") == "PX";
    FramingIsNoTtlFlag(f);
    TenParses();
    TtlFromLastFlag(f, now, 8);
  }

  /** The length headers, the TTL "10" and the trailing empty fragment are not TTL flags. */
  lemma FramingIsNoTtlFlag(f: seq<string>)
    requires |f| == 12 && f[9] == "$2" && f[10] == "10" && f[11] == ""
    ensures forall j :: 8 < j < |f| ==> !IsTtlFlag(f[j])
  {
    assert Upper("$2")[0] == '$';
    assert Upper("10")[0] == '1';
    assert |Upper("")| == 0;
  }

  lemma TenParses()
    ensures ParseI64("10") == Some(10)
  {
    assert "10"[..1] == "1";
    assert DigitsValue("1") == 1 by {
      assert "1"[..0] == "";
    }
  }

  /** A key or value that spells NX or XX is not a modifier: `SET nx xx` just stores. */
  lemma KeyAndValueAreNotGuards(st: State, sessions: Sessions, sessionId: string, now: int)
    requires sessionId in sessions
    ensures var f := ["*3", "$3", "SET", "$2", "nx", "$2", "xx", ""];
      Effect(st, sessions, sessionId, f, true, now)
        == Outcome(AfterSetWithTtl(st, sessions[sessionId].selectedDatabase, "nx", "xx", NoExpiry), Some(Ok))
  {
    var f := ["*3", "$3", "SET", "$2", "nx", "$2", "xx", ""];
    forall i | 0 <= i < |f| && i != 4 && i != 6
      ensures Upper(f[i]) != "NX" && Upper(f[i]) != "XX"
    {
      assert |f[i]| == 0 || Upper(f[i])[0] == f[i][0];
    }
    assert !HasGuard(f, "NX") && !HasGuard(f, "XX");
  }
}
