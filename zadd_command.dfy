/** `ZADD key score member` (src/command/zset/zadd.rs). */
module ZaddCommand {
  import opened Wrappers
  import opened Wire
  import opened Store
  import opened Command

  /**
   * Fragment 4 is the key, fragment 6 an unsigned score and fragment 8 the
   * member; a missing fragment or a score that is not a `usize` panics.
   */
  predicate WellFormed(fragments: seq<string>) {
    |fragments| >= 9 && ParseUsize(fragments[6]).Some?
  }

  /** `usize as i64`: values above `i64::MAX` wrap to negatives. */
  function AsI64(n: nat): (r: int)
    requires n <= UsizeMax
    ensures I64Min <= r <= I64Max
    ensures n <= I64Max ==> r == n
  {
    if n <= I64Max then n else n - (UsizeMax + 1)
  }

  /** The store's answer as a reply: a count becomes an Integer, a failure an Error with its text. */
  function ReplyOf(r: Result<nat>): (reply: Reply)
    requires r.Success? ==> r.value <= UsizeMax
    ensures reply.Integer? <==> r.Success?
    ensures reply.Error? <==> r.Failure?
    ensures r.Success? && r.value <= I64Max ==> reply.value == r.value
    ensures r.Failure? ==> reply.message == r.message
  {
    match r
    case Success(n) => Integer(AsI64(n))
    case Failure(message) => Error(message)
  }

  /** What ZADD does: expire the key if due, add the one score/member pair, reply with the result. */
  ghost function Effect(st: State, sessions: Sessions, sessionId: string, fragments: seq<string>,
                        stream: bool, now: int): (outcome: Outcome)
    requires sessionId in sessions ==> WellFormed(fragments)
  {
    if sessionId !in sessions then Outcome(st, None)
    else
      var db := sessions[sessionId].selectedDatabase;
      var key := fragments[4];
      var added := AfterZadd(AfterCheckTtl(st, db, key, now), db, key, fragments[8], ParseUsize(fragments[6]).value);
      Outcome(added.0, Respond(stream, ReplyOf(added.1)))
  }

  method Execute(db: Db, sessions: Sessions, sessionId: string, fragments: seq<string>,
                 stream: bool, now: int) returns (reply: Option<Reply>)
    requires sessionId in sessions ==> WellFormed(fragments)
    modifies db
    ensures Outcome(db.entries, reply) == Effect(old(db.entries), sessions, sessionId, fragments, stream, now)
  {
    if sessionId !in sessions {
      return None;
    }
    var dbIndex := sessions[sessionId].selectedDatabase;
    var key := fragments[4];
    var score := ParseUsize(fragments[6]).value;
    var value := fragments[8];
    db.CheckTtl(dbIndex, key, now);
    var result := db.Zadd(dbIndex, key, value, score);
    match result
    case Success(n) =>
      reply := Respond(stream, Integer(AsI64(n)));
    case Failure(message) =>
      reply := Respond(stream, Error(message));
  }

  function CommandKind(): (t: CommandType)
    ensures t == Write
  {
    Write
  }

  // ---- Properties of ZADD ----

  lemma UnknownSessionIsIgnored(st: State, sessions: Sessions, sessionId: string, fragments: seq<string>,
                                stream: bool, now: int)
    requires sessionId !in sessions
    ensures Effect(st, sessions, sessionId, fragments, stream, now) == Outcome(st, None)
  {
  }

  /**
   * The expiry check on the key runs first and `zadd` sees its result; a
   * count from the store is sent back as an Integer.
   */
  lemma CountBecomesInteger(st: State, sessions: Sessions, sessionId: string, fragments: seq<string>,
                            stream: bool, now: int)
    requires sessionId in sessions && WellFormed(fragments)
    requires var db := sessions[sessionId].selectedDatabase;
      AfterZadd(AfterCheckTtl(st, db, fragments[4], now), db, fragments[4], fragments[8],
                ParseUsize(fragments[6]).value).1.Success?
    ensures var db := sessions[sessionId].selectedDatabase;
      var added := AfterZadd(AfterCheckTtl(st, db, fragments[4], now), db, fragments[4], fragments[8],
                             ParseUsize(fragments[6]).value);
      Effect(st, sessions, sessionId, fragments, stream, now)
        == Outcome(added.0, if stream then Some(Integer(AsI64(added.1.value))) else None)
  {
  }

  /**
   * A failure from the store is sent back as an Error with the same text,
   * and the store is left as the expiry check left it.
   */
  lemma FailureBecomesError(st: State, sessions: Sessions, sessionId: string, fragments: seq<string>,
                            stream: bool, now: int)
    requires sessionId in sessions && WellFormed(fragments)
    requires var db := sessions[sessionId].selectedDatabase;
      AfterZadd(AfterCheckTtl(st, db, fragments[4], now), db, fragments[4], fragments[8],
                ParseUsize(fragments[6]).value).1.Failure?
    ensures var db := sessions[sessionId].selectedDatabase;
      var expired := AfterCheckTtl(st, db, fragments[4], now);
      var added := AfterZadd(expired, db, fragments[4], fragments[8], ParseUsize(fragments[6]).value);
      Effect(st, sessions, sessionId, fragments, stream, now)
        == Outcome(expired, if stream then Some(Error(added.1.message)) else None)
  {
  }

  /** Only one score/member pair is read: fragments after the member change nothing. */
  lemma ExtraPairsIgnored(st: State, sessions: Sessions, sessionId: string, fragments: seq<string>,
                          extra: seq<string>, stream: bool, now: int)
    requires sessionId in sessions ==> WellFormed(fragments)
    ensures sessionId in sessions ==> WellFormed(fragments + extra)
    ensures Effect(st, sessions, sessionId, fragments + extra, stream, now)
         == Effect(st, sessions, sessionId, fragments, stream, now)
  {
    if sessionId in sessions {
      var f := fragments + extra;
      assert f[4] == fragments[4] && f[6] == fragments[6] && f[8] == fragments[8];
    }
  }

  /** The score is read as an unsigned number: a negative score never parses. */
  lemma NegativeScoreRejected(s: string)
    requires |s| > 0 && s[0] == '-'
    ensures ParseUsize(s).None?
  {
  }
}
